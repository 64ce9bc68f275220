/** The backfill manifest of `scripts/capability-obligation-backfill-manifest.ts`: which historical obligations
    a reviewer's confirmed entries make eligible, and the digest an approval binds to. A hash is modelled by the
    text it is taken over, so it is injective. */
module BackfillManifest {
  import opened Wrappers
  import opened StableSort

  type Bytes = string

  datatype Digest = Sha256(input: Bytes)

  datatype Classification = ConfirmedUnfulfilled | Conflicting | Inconclusive

  datatype Inbound = Inbound(messageId: string, conversationKey: string, chatJid: string)

  /** The latest message of an id. */
  datatype Message = Message(content: Option<string>, mediaPath: Option<string>, fromMe: bool, senderJid: string)

  datatype Job = Job(
    seqNo: int, messageId: string, conversationKey: string, deliveryJid: string, state: string,
    completion: Option<string>)

  /** A row of `capability_obligations`; its id is one more than its place. */
  datatype Obligation = Obligation(
    seqNo: int, messageId: string, conversationKey: string, deliveryJid: string, senderJid: string, isGroup: bool,
    groupName: Option<string>, originJob: Option<int>, replayText: string, contentType: string, contractVersion: string,
    capability: string, skill: string, inputDigest: Digest, sourceDigest: Digest, sourceToken: Option<string>,
    retained: Option<Retained>, state: string, reason: string)

  datatype Retained = Retained(sha256: Digest, bytes: nat, policyVersion: string)

  /** The database and the files at one moment; `retainable` are the files whose retention would succeed. */
  datatype World = World(
    inbound: map<int, Inbound>, messages: map<string, Message>, jobs: map<int, Job>, obligations: seq<Obligation>,
    files: map<string, Bytes>, retainable: set<string>)

  datatype Decision = Match(capability: string, sourceToken: Option<string>) | NoMatch | Conflict

  /** A contract and its evaluation over a text and a prepared media class. */
  datatype Contract = Contract(version: string, evaluate: (string, Option<string>) -> Decision)
  {
    /** A source token is a part of the text, never of an empty one. */
    ghost predicate TokensComeFromText() {
      forall mediaClass :: evaluate("", mediaClass).Match? ==> evaluate("", mediaClass).sourceToken.None?
    }
  }

  datatype Entry = Entry(
    seqNo: int, messageId: string, jobId: int, classification: Classification, evidencePath: Option<string>,
    evidenceDigest: Option<Digest>, mediaClass: Option<string>, reviewerCapability: Option<string>)

  datatype Descriptor = Descriptor(
    seqNo: int, messageId: string, eligible: bool, reason: Option<string>, classifiedBy: Option<string>,
    conversationKey: Option<string>, deliveryJid: Option<string>, isGroup: Option<bool>, capability: Option<string>,
    contractVersion: Option<string>, sourceToken: Option<string>, sourceDigest: Option<Digest>,
    mediaSha256: Option<Digest>, mediaBytes: Option<nat>, jobId: Option<int>, classification: Option<Classification>,
    mediaClass: Option<string>, inputDigest: Option<Digest>, evidenceDigest: Option<Digest>)

  // Recovery corroboration.

  datatype Bind = Bind(
    jobId: int, seqNo: int, messageId: string, conversationKey: string, deliveryJid: string,
    classification: Classification)

  predicate WorkerFulfilled(jobs: map<int, Job>, seqNo: int) {
    exists j <- jobs :: jobs[j].seqNo == seqNo && jobs[j].state == "completed" && jobs[j].completion == Some("worker")
  }

  /** `classifyRecoveryFulfillment`: no reason when the job is confirmable. */
  function ClassifyRecovery(jobs: map<int, Job>, b: Bind): Option<string> {
    if b.classification != ConfirmedUnfulfilled then Some("fulfillment_not_confirmed")
    else if b.jobId !in jobs then Some("recovery_job_not_found")
    else
      var job := jobs[b.jobId];
      if job.seqNo != b.seqNo || job.messageId != b.messageId || job.conversationKey != b.conversationKey
        || job.deliveryJid != b.deliveryJid
      then Some("recovery_job_binding_mismatch")
      else if job.state != "completed" || job.completion != Some("echo") then Some("recovery_job_not_echo_settled")
      else if WorkerFulfilled(jobs, b.seqNo) then Some("later_fulfillment_found")
      else None
  }

  // The manifest digest.

  function InputDigest(text: string, mediaClass: Option<string>): Digest {
    Sha256(text + "\n" + mediaClass.GetOr(""))
  }

  function SourceDigest(token: Option<string>, media: Option<Digest>): Digest {
    if media.Some? then media.value else Sha256(token.GetOr(""))
  }

  /** What the digest covers of a descriptor. */
  function Canonical(d: Descriptor): Keyed<Descriptor> {
    Keyed(d.seqNo, d.(eligible := true, reason := None))
  }

  function Canonicals(ds: seq<Descriptor>): seq<Keyed<Descriptor>> {
    seq(|ds|, i requires 0 <= i < |ds| => Canonical(ds[i]))
  }

  /** The hash of the manifest id, a line feed and the canonical JSON, which has no line feed of its own. */
  datatype ManifestDigest = ManifestSha256(manifestId: string, canonical: seq<Keyed<Descriptor>>)

  function ComputeManifestDigest(manifestId: string, eligible: seq<Descriptor>): ManifestDigest {
    ManifestSha256(manifestId, Sort(Canonicals(eligible)))
  }

  /** What an approval binds to: two manifests have the same digest exactly when they have the same id and, for
      every source sequence number, the same covered fields in the same order. Only the order between
      different sequence numbers is left open. */
  lemma DigestEqualIff(id: string, a: seq<Descriptor>, id': string, b: seq<Descriptor>)
    ensures (ComputeManifestDigest(id, a) == ComputeManifestDigest(id', b)) <==>
      (id == id' && SamePerKey(Canonicals(a), Canonicals(b)))
  {
    SortEqualIff(Canonicals(a), Canonicals(b));
  }

  // The generator.

  function Ineligible(c: Entry, reason: string): Descriptor {
    Descriptor(c.seqNo, c.messageId, false, Some(reason), None, None, None, None, None, None, None, None, None, None,
               None, None, None, None, None)
  }

  predicate IsGroupJid(jid: string) {
    |jid| >= 5 && jid[|jid| - 5..] == "@g.us"
  }

  function BindOf(c: Entry, inbound: Inbound): Bind {
    Bind(c.jobId, c.seqNo, c.messageId, inbound.conversationKey, inbound.chatJid, c.classification)
  }

  /** Why the evidence of an entry does not hold, if it does not. */
  function EvidenceProblem(w: World, c: Entry): Option<string> {
    if c.evidencePath.None? then Some("evidence_artifact_required")
    else if c.evidencePath.value !in w.files then Some("evidence_artifact_unreadable")
    else if c.evidenceDigest.Some? && c.evidenceDigest.value != Sha256(w.files[c.evidencePath.value])
    then Some("evidence_digest_mismatch")
    else None
  }

  /** The descriptor of one confirmed entry. */
  function Describe(w: World, contract: Contract, c: Entry): Descriptor {
    if c.seqNo !in w.inbound then Ineligible(c, "inbound_not_found")
    else if w.inbound[c.seqNo].messageId != c.messageId then Ineligible(c, "inbound_message_id_mismatch")
    else if c.messageId !in w.messages then Ineligible(c, "message_not_found")
    else
      var inbound, message := w.inbound[c.seqNo], w.messages[c.messageId];
      var text := message.content.GetOr("");
      var decision := if c.reviewerCapability.Some? then Match(c.reviewerCapability.value, None)
                      else contract.evaluate(text, c.mediaClass);
      if message.fromMe then Ineligible(c, "message_is_outbound")
      else if decision.NoMatch? then Ineligible(c, "contract_no_match")
      else if decision.Conflict? then Ineligible(c, "contract_conflict")
      else if message.mediaPath.Some? && message.mediaPath.value !in w.files then Ineligible(c, "media_unavailable")
      else if message.mediaPath.None? && c.reviewerCapability.Some? then
        Ineligible(c, "reviewer_override_requires_media")
      else if message.mediaPath.None? && decision.sourceToken.None? then Ineligible(c, "no_source_token")
      else
        var media := if message.mediaPath.Some? then Some(w.files[message.mediaPath.value]) else None;
        var sha := if media.Some? then Some(Sha256(media.value)) else None;
        var token := if media.Some? then None else decision.sourceToken;
        var recovery := ClassifyRecovery(w.jobs, BindOf(c, inbound));
        var evidence := EvidenceProblem(w, c);
        if recovery.Some? then Ineligible(c, recovery.value)
        else if evidence.Some? then Ineligible(c, evidence.value)
        else
          var mediaClass := if sha.Some? then c.mediaClass else None;
          Descriptor(c.seqNo, c.messageId, true, None,
                     Some(if c.reviewerCapability.Some? then "reviewer" else "contract"),
                     Some(inbound.conversationKey), Some(inbound.chatJid), Some(IsGroupJid(inbound.chatJid)),
                     Some(decision.capability), Some(contract.version), token, Some(SourceDigest(token, sha)), sha,
                     if media.Some? then Some(|media.value|) else None,
                     Some(c.jobId), Some(c.classification), mediaClass,
                     Some(InputDigest(text, mediaClass)), Some(Sha256(w.files[c.evidencePath.value])))
  }

  datatype Manifest = Manifest(
    manifestId: string, contractVersion: string, entries: seq<Descriptor>, eligibleCount: nat,
    manifestDigest: ManifestDigest)

  /** The eligible descriptors, in order. */
  function Eligible(entries: seq<Descriptor>): seq<Descriptor> {
    if entries == [] then []
    else Eligible(entries[..|entries| - 1]) + if entries[|entries| - 1].eligible then [entries[|entries| - 1]] else []
  }

  lemma {:induction false} EligibleHolds(entries: seq<Descriptor>, d: Descriptor)
    ensures d in Eligible(entries) <==> d in entries && d.eligible
  {
    if entries != [] {
      EligibleHolds(entries[..|entries| - 1], d);
      assert entries == entries[..|entries| - 1] + [entries[|entries| - 1]];
    }
  }

  function Descriptors(w: World, contract: Contract, confirmed: seq<Entry>): seq<Descriptor> {
    if confirmed == [] then []
    else Descriptors(w, contract, confirmed[..|confirmed| - 1]) + [Describe(w, contract, confirmed[|confirmed| - 1])]
  }

  /** `generateBackfillManifest`. */
  method GenerateBackfillManifest(w: World, manifestId: string, contract: Contract, confirmed: seq<Entry>)
    returns (m: Manifest)
    ensures m.manifestId == manifestId && m.contractVersion == contract.version
    ensures m.entries == Descriptors(w, contract, confirmed)
    ensures m.eligibleCount == |Eligible(m.entries)|
    ensures m.manifestDigest == ComputeManifestDigest(manifestId, Eligible(m.entries))
  {
    var entries: seq<Descriptor> := [];
    var eligible: seq<Descriptor> := [];
    for i := 0 to |confirmed|
      invariant entries == Descriptors(w, contract, confirmed[..i])
      invariant eligible == Eligible(entries)
    {
      var d := Describe(w, contract, confirmed[i]);
      assert confirmed[..i + 1][..i] == confirmed[..i];
      assert (entries + [d])[..|entries|] == entries;
      entries := entries + [d];
      if d.eligible { eligible := eligible + [d]; }
    }
    assert confirmed[..|confirmed|] == confirmed;
    m := Manifest(manifestId, contract.version, entries, |eligible|, ComputeManifestDigest(manifestId, eligible));
  }

  lemma DescribeNames(w: World, contract: Contract, c: Entry)
    ensures var d := Describe(w, contract, c);
      d.seqNo == c.seqNo && d.messageId == c.messageId && (d.reason.Some? <==> !d.eligible)
  {
  }

  /** Never a silent drop: every confirmed entry has its descriptor, in its place, and a descriptor has a reason
      exactly when it is not eligible. */
  lemma NothingIsDropped(w: World, contract: Contract, confirmed: seq<Entry>, i: nat)
    requires i < |confirmed|
    ensures var ds := Descriptors(w, contract, confirmed);
      && |ds| == |confirmed| && ds[i].seqNo == confirmed[i].seqNo && ds[i].messageId == confirmed[i].messageId
      && (ds[i].reason.Some? <==> !ds[i].eligible)
  {
    DescriptorAt(w, contract, confirmed, i);
    DescribeNames(w, contract, confirmed[i]);
  }

  lemma {:induction false} DescriptorAt(w: World, contract: Contract, confirmed: seq<Entry>, i: nat)
    requires i < |confirmed|
    ensures |Descriptors(w, contract, confirmed)| == |confirmed|
    ensures Descriptors(w, contract, confirmed)[i] == Describe(w, contract, confirmed[i])
  {
    var n := |confirmed| - 1;
    if i < n { DescriptorAt(w, contract, confirmed[..n], i); }
    else if n > 0 { DescriptorAt(w, contract, confirmed[..n], 0); }
  }
}
