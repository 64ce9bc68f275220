/** Retries of the enrichment backfill, over any number of runs, each with its own limit, dry or not, and with any
    faults: every marked message is accounted for by one batch, the backlog drains by the limits of the runs without
    faults, and when the findings repeat and the backlog fits the limit the final queue is known beforehand. */
module EnrichmentRuns {
  import opened Enrichment
  import opened EnrichmentSafety

  datatype RunArgs = RunArgs(deps: Deps, limit: nat, dryRun: bool)

  /** The store after `RunBackfill`. */
  function AfterRun(s: Store, run: RunArgs): Store {
    var fetched := Fetched(s, run.limit);
    AfterBatches(s, fetched, Chats(fetched), run.deps, run.dryRun)
  }

  function AfterRuns(s: Store, runs: seq<RunArgs>): Store {
    if runs == [] then s else AfterRun(AfterRuns(s, runs[..|runs| - 1]), runs[|runs| - 1])
  }

  // The history of the batches that ran.

  /** A batch, its validated facts, whether it got as far as the queue, and whether it was marked. */
  datatype BatchRan = BatchRan(messages: seq<Message>, facts: seq<Fact>, reached: bool, marked: bool)

  function BatchOf(s: Store, chat: string, batch: seq<Message>, run: RunArgs): BatchRan {
    var end, facts := EndOf(s.queue, chat, batch, run.deps, run.dryRun), ValidFacts(batch, run.deps);
    BatchRan(batch, facts, Reached(end, facts), end.Marked?)
  }

  function BatchesOf(s: Store, fetched: seq<Message>, chats: seq<string>, run: RunArgs): seq<BatchRan> {
    if chats == [] then []
    else
      var n := |chats| - 1;
      var before := AfterBatches(s, fetched, chats[..n], run.deps, run.dryRun);
      BatchesOf(s, fetched, chats[..n], run) + [BatchOf(before, chats[n], OfChat(fetched, chats[n]), run)]
  }

  function History(s: Store, runs: seq<RunArgs>): seq<BatchRan> {
    if runs == [] then []
    else
      var n := |runs| - 1;
      var before := AfterRuns(s, runs[..n]);
      var fetched := Fetched(before, runs[n].limit);
      History(s, runs[..n]) + BatchesOf(before, fetched, Chats(fetched), runs[n])
  }

  predicate QueuedBy(h: seq<BatchRan>, k: FactKey) {
    exists b <- h :: b.reached && Queued(b.facts, k)
  }

  predicate MarkedBy(h: seq<BatchRan>, pk: int) {
    exists b <- h :: b.marked && pk in Pks(b.messages)
  }

  /** No message is marked by two batches. */
  ghost predicate MarkedOnce(h: seq<BatchRan>) {
    forall i, j | 0 <= i < j < |h| && h[i].marked && h[j].marked :: Pks(h[i].messages) !! Pks(h[j].messages)
  }

  ghost predicate FactsIn(b: BatchRan, queue: seq<Fact>) {
    forall f <- b.facts :: Queued(queue, KeyOf(f))
  }

  /** The history accounts for the store `t` reached from `s0`: the queue has grown, has no key twice, holds the facts
      of every marked batch and otherwise only facts of batches that got to it; and exactly the messages of the marked
      batches have been marked, each by one batch. */
  ghost predicate Accounts(s0: Store, t: Store, h: seq<BatchRan>) {
    && t.messages == s0.messages && s0.queue <= t.queue && UniqueFacts(t.queue)
    && (forall b <- h | b.marked :: FactsIn(b, t.queue))
    && (forall k | Queued(t.queue, k) :: Queued(s0.queue, k) || QueuedBy(h, k))
    && (forall pk :: pk in t.processed <==> pk in s0.processed || MarkedBy(h, pk))
    && MarkedOnce(h)
  }

  lemma FactsStay(h: seq<BatchRan>, queue: seq<Fact>, after: seq<Fact>)
    requires queue <= after && forall b <- h | b.marked :: FactsIn(b, queue)
    ensures forall b <- h | b.marked :: FactsIn(b, after)
  {
    forall b <- h, f <- b.facts | b.marked ensures Queued(after, KeyOf(f)) {
      assert FactsIn(b, queue);
      var g :| g in queue && KeyOf(g) == KeyOf(f);
      assert g in after;
    }
  }

  lemma ByOneMore(h: seq<BatchRan>, b: BatchRan, k: FactKey, pk: int)
    ensures QueuedBy(h + [b], k) <==> QueuedBy(h, k) || (b.reached && Queued(b.facts, k))
    ensures MarkedBy(h + [b], pk) <==> MarkedBy(h, pk) || (b.marked && pk in Pks(b.messages))
  {
    assert forall c :: c in h + [b] <==> c in h || c == b;
  }

  lemma OnceOneMore(h: seq<BatchRan>, b: BatchRan)
    requires MarkedOnce(h) && forall pk <- Pks(b.messages) :: !MarkedBy(h, pk)
    ensures MarkedOnce(h + [b])
  {
    forall i | 0 <= i < |h| && h[i].marked ensures Pks(h[i].messages) !! Pks(b.messages) {
      forall pk <- Pks(b.messages) ensures pk !in Pks(h[i].messages) { assert !MarkedBy(h, pk); }
    }
  }

  /** What one batch does to the queue, and what its end says of the facts. */
  lemma BatchQueue(s: Store, chat: string, batch: seq<Message>, run: RunArgs)
    requires KeepsItsWord(run.deps.enqueue)
    ensures var t, b := AfterBatch(s, chat, batch, run.deps, run.dryRun), BatchOf(s, chat, batch, run);
      && t.messages == s.messages && t.processed == s.processed + (if b.marked then Pks(batch) else {})
      && s.queue <= t.queue && (UniqueFacts(s.queue) ==> UniqueFacts(t.queue))
      && (b.marked ==> FactsIn(b, t.queue))
      && forall k | Queued(t.queue, k) :: Queued(s.queue, k) || (b.reached && Queued(b.facts, k))
  {
    var valid := ValidFacts(batch, run.deps);
    assert Honest(s.queue, valid, run.deps.enqueue(s.queue, valid));
    assert forall f <- valid :: Queued(valid, KeyOf(f));
  }

  lemma BatchAccounts(s0: Store, s: Store, h: seq<BatchRan>, chat: string, batch: seq<Message>, run: RunArgs)
    requires Accounts(s0, s, h) && KeepsItsWord(run.deps.enqueue) && forall pk <- Pks(batch) :: pk !in s.processed
    ensures Accounts(s0, AfterBatch(s, chat, batch, run.deps, run.dryRun), h + [BatchOf(s, chat, batch, run)])
  {
    var t, b := AfterBatch(s, chat, batch, run.deps, run.dryRun), BatchOf(s, chat, batch, run);
    BatchQueue(s, chat, batch, run);
    FactsStay(h, s.queue, t.queue);
    assert forall c :: c in h + [b] <==> c in h || c == b;
    forall k, pk
      ensures QueuedBy(h + [b], k) <==> QueuedBy(h, k) || (b.reached && Queued(b.facts, k))
      ensures MarkedBy(h + [b], pk) <==> MarkedBy(h, pk) || (b.marked && pk in Pks(b.messages))
    {
      ByOneMore(h, b, k, pk);
    }
    OnceOneMore(h, b);
  }

  /** Within a run, only messages of the chats done are marked. */
  ghost predicate MarksOnly(s: Store, t: Store, fetched: seq<Message>, done: seq<string>) {
    && s.processed <= t.processed
    && forall pk <- t.processed - s.processed :: FromChats(fetched, done, pk)
  }

  lemma FetchedIsFresh(s: Store, limit: nat)
    requires DistinctPks(s.messages)
    ensures DistinctPks(Fetched(s, limit)) && forall m <- Fetched(s, limit) :: m.pk !in s.processed
  {
    PendingDistinct(s.messages, s.processed);
    forall m <- Fetched(s, limit) ensures m.pk !in s.processed { PendingHolds(s.messages, s.processed, m); }
  }

  /** The messages of a chat still to come are not marked. */
  lemma StillFresh(s: Store, t: Store, limit: nat, done: seq<string>, chat: string, pk: int)
    requires DistinctPks(s.messages) && MarksOnly(s, t, Fetched(s, limit), done)
    requires chat !in done && pk in Pks(OfChat(Fetched(s, limit), chat))
    ensures pk !in t.processed
  {
    var fetched := Fetched(s, limit);
    FetchedIsFresh(s, limit);
    NewMark(fetched, done, chat, pk);
    assert pk !in t.processed - s.processed;
    var m :| m in fetched && m.pk == pk && m.chat == chat;
    assert m.pk !in s.processed;
  }

  lemma MarksOneMore(s: Store, t: Store, fetched: seq<Message>, done: seq<string>, chat: string, run: RunArgs)
    requires MarksOnly(s, t, fetched, done)
    ensures MarksOnly(s, AfterBatch(t, chat, OfChat(fetched, chat), run.deps, run.dryRun), fetched, done + [chat])
  {
    var batch := OfChat(fetched, chat);
    forall pk | pk in t.processed - s.processed || pk in Pks(batch) ensures FromChats(fetched, done + [chat], pk) {
      if pk in t.processed - s.processed {
        MoreChats(fetched, done, done + [chat], pk);
      } else {
        var m :| m in batch && m.pk == pk;
        OfChatHolds(fetched, chat, m);
      }
    }
  }

  /** Within a run, after the batches of `done`. */
  ghost predicate MidRun(s0: Store, s: Store, h: seq<BatchRan>, run: RunArgs, done: seq<string>) {
    var fetched := Fetched(s, run.limit);
    var t := AfterBatches(s, fetched, done, run.deps, run.dryRun);
    Accounts(s0, t, h + BatchesOf(s, fetched, done, run)) && MarksOnly(s, t, fetched, done)
  }

  lemma OneMoreBatch(s: Store, h: seq<BatchRan>, fetched: seq<Message>, run: RunArgs, done: seq<string>, chat: string)
    ensures var t := AfterBatches(s, fetched, done, run.deps, run.dryRun);
      && AfterBatches(s, fetched, done + [chat], run.deps, run.dryRun)
        == AfterBatch(t, chat, OfChat(fetched, chat), run.deps, run.dryRun)
      && h + BatchesOf(s, fetched, done + [chat], run)
        == h + BatchesOf(s, fetched, done, run) + [BatchOf(t, chat, OfChat(fetched, chat), run)]
  {
    assert (done + [chat])[..|done|] == done;
  }

  lemma MidRunGoesOn(s0: Store, s: Store, h: seq<BatchRan>, run: RunArgs, done: seq<string>, chat: string)
    requires MidRun(s0, s, h, run, done) && KeepsItsWord(run.deps.enqueue) && DistinctPks(s.messages) && chat !in done
    ensures MidRun(s0, s, h, run, done + [chat])
  {
    var fetched := Fetched(s, run.limit);
    var t, batch := AfterBatches(s, fetched, done, run.deps, run.dryRun), OfChat(fetched, chat);
    forall pk <- Pks(batch) ensures pk !in t.processed { StillFresh(s, t, run.limit, done, chat, pk); }
    BatchAccounts(s0, t, h + BatchesOf(s, fetched, done, run), chat, batch, run);
    MarksOneMore(s, t, fetched, done, chat, run);
    OneMoreBatch(s, h, fetched, run, done, chat);
  }

  lemma {:induction false} BatchesAccount(s0: Store, s: Store, h: seq<BatchRan>, run: RunArgs, chats: seq<string>)
    requires Accounts(s0, s, h) && KeepsItsWord(run.deps.enqueue) && DistinctPks(s.messages)
    requires forall i, j | 0 <= i < j < |chats| :: chats[i] != chats[j]
    ensures MidRun(s0, s, h, run, chats)
  {
    if chats == [] {
      assert h + BatchesOf(s, Fetched(s, run.limit), chats, run) == h;
    } else {
      var n := |chats| - 1;
      BatchesAccount(s0, s, h, run, chats[..n]);
      assert chats[n] !in chats[..n] && chats == chats[..n] + [chats[n]];
      MidRunGoesOn(s0, s, h, run, chats[..n], chats[n]);
    }
  }

  /** After any runs, with any limits and any faults, the history accounts for the store. */
  lemma {:induction false} RunsAreAccounted(s0: Store, runs: seq<RunArgs>)
    requires DistinctPks(s0.messages) && UniqueFacts(s0.queue) && forall run <- runs :: KeepsItsWord(run.deps.enqueue)
    ensures Accounts(s0, AfterRuns(s0, runs), History(s0, runs))
  {
    if runs != [] {
      var n := |runs| - 1;
      assert forall run <- runs[..n] :: run in runs;
      RunsAreAccounted(s0, runs[..n]);
      var before := AfterRuns(s0, runs[..n]);
      var chats := Chats(Fetched(before, runs[n].limit));
      ChatsHold(Fetched(before, runs[n].limit), "");
      BatchesAccount(s0, before, History(s0, runs[..n]), runs[n], chats);
    }
  }

  // The backlog.

  /** Nothing throws, and the accounting always adds up. */
  ghost predicate NoFaults(deps: Deps) {
    && (forall chat :: deps.extractFault(chat).None? && deps.validateFault(chat).None? && deps.enqueueFault(chat).None?
          && deps.markFault(chat).None?)
    && forall queue, facts :: AccountingOk(deps.enqueue(queue, facts).result, |facts|)
  }

  ghost predicate Clean(run: RunArgs) {
    NoFaults(run.deps) && !run.dryRun
  }

  function Backlog(s: Store): seq<Message> {
    Pending(s.messages, s.processed)
  }

  /** How many messages the runs without faults can take together. */
  ghost function CleanCapacity(runs: seq<RunArgs>): nat {
    if runs == [] then 0
    else CleanCapacity(runs[..|runs| - 1]) + if Clean(runs[|runs| - 1]) then runs[|runs| - 1].limit else 0
  }

  lemma {:induction false} PendingAgrees(messages: seq<Message>, p: set<int>, q: set<int>)
    requires forall m <- messages :: m.pk in p <==> m.pk in q
    ensures Pending(messages, p) == Pending(messages, q)
  {
    if messages != [] {
      var n := |messages| - 1;
      assert messages[n] in messages && forall m <- messages[..n] :: m in messages;
      PendingAgrees(messages[..n], p, q);
    }
  }

  lemma {:induction false} PendingShrinks(messages: seq<Message>, p: set<int>, q: set<int>)
    requires p <= q
    ensures |Pending(messages, q)| <= |Pending(messages, p)|
  {
    if messages != [] { PendingShrinks(messages[..|messages| - 1], p, q); }
  }

  /** Marking the first messages of the backlog leaves the rest of it, in order. */
  lemma {:induction false} MarkingTakesFirst(messages: seq<Message>, p: set<int>, k: nat)
    requires DistinctPks(messages) && k <= |Pending(messages, p)|
    ensures Pending(messages, p + Pks(Pending(messages, p)[..k])) == Pending(messages, p)[k..]
  {
    if messages != [] {
      var n := |messages| - 1;
      var all, earlier, last := Pending(messages, p), Pending(messages[..n], p), messages[n];
      var j := if k <= |earlier| then k else |earlier|;
      MarkingTakesFirst(messages[..n], p, j);
      assert all[..j] == earlier[..j];
      forall m <- messages[..n] ensures m.pk in p + Pks(all[..k]) <==> m.pk in p + Pks(earlier[..j]) {
        assert m.pk != last.pk;
        assert k != j ==> all[..k] == earlier[..j] + [last];
      }
      PendingAgrees(messages[..n], p + Pks(all[..k]), p + Pks(earlier[..j]));
      forall m <- earlier[..j] ensures m.pk != last.pk { PendingHolds(messages[..n], p, m); }
      assert k != j ==> last in all[..k];
    }
  }

  lemma {:induction false} CleanBatchesMark(s: Store, fetched: seq<Message>, chats: seq<string>, run: RunArgs)
    requires Clean(run)
    ensures AfterBatches(s, fetched, chats, run.deps, run.dryRun).processed == s.processed
      + Pks(Regrouped(fetched, chats))
    ensures AfterBatches(s, fetched, chats, run.deps, run.dryRun).messages == s.messages
  {
    if chats != [] {
      var n := |chats| - 1;
      CleanBatchesMark(s, fetched, chats[..n], run);
      var a, b := Regrouped(fetched, chats[..n]), OfChat(fetched, chats[n]);
      assert Pks(a + b) == Pks(a) + Pks(b);
    }
  }

  lemma RegroupedPks(messages: seq<Message>)
    ensures Pks(Regrouped(messages, Chats(messages))) == Pks(messages)
  {
    var regrouped := Regrouped(messages, Chats(messages));
    GroupsPartition(messages);
    forall m: Message ensures m in regrouped <==> m in messages {
      assert m in messages <==> m in multiset(messages);
      assert m in regrouped <==> m in multiset(regrouped);
    }
  }

  /** What is left of the backlog after its first `n` messages. */
  function Beyond(backlog: seq<Message>, n: nat): seq<Message> {
    if n <= |backlog| then backlog[n..] else []
  }

  lemma BeyondAdds(backlog: seq<Message>, n: nat, more: nat)
    ensures Beyond(Beyond(backlog, n), more) == Beyond(backlog, n + more)
  {
  }

  /** A run without faults takes the oldest messages of the backlog, as many as its limit allows. */
  lemma CleanRunTakesOldest(s: Store, run: RunArgs)
    requires DistinctPks(s.messages) && Clean(run)
    ensures AfterRun(s, run).messages == s.messages && Backlog(AfterRun(s, run)) == Beyond(Backlog(s), run.limit)
  {
    var fetched := Fetched(s, run.limit);
    CleanBatchesMark(s, fetched, Chats(fetched), run);
    RegroupedPks(fetched);
    assert fetched == Backlog(s)[..|fetched|];
    MarkingTakesFirst(s.messages, s.processed, |fetched|);
  }

  lemma {:induction false} RunOnlyMarks(s: Store, fetched: seq<Message>, chats: seq<string>, run: RunArgs)
    ensures var t := AfterBatches(s, fetched, chats, run.deps, run.dryRun);
      t.messages == s.messages && s.processed <= t.processed
  {
    if chats != [] { RunOnlyMarks(s, fetched, chats[..|chats| - 1], run); }
  }

  /** Whatever the other runs do, the runs without faults take from the backlog what their limits add up to. */
  lemma {:induction false} BacklogDrains(s0: Store, runs: seq<RunArgs>)
    requires DistinctPks(s0.messages)
    ensures var t := AfterRuns(s0, runs);
      && t.messages == s0.messages && s0.processed <= t.processed
      && |Backlog(t)| <= if CleanCapacity(runs) <= |Backlog(s0)| then |Backlog(s0)| - CleanCapacity(runs) else 0
  {
    if runs != [] {
      var run, before := runs[|runs| - 1], AfterRuns(s0, runs[..|runs| - 1]);
      BacklogDrains(s0, runs[..|runs| - 1]);
      var fetched := Fetched(before, run.limit);
      RunOnlyMarks(before, fetched, Chats(fetched), run);
      PendingShrinks(before.messages, before.processed, AfterRun(before, run).processed);
      if Clean(run) { CleanRunTakesOldest(before, run); }
    }
  }

  lemma OneMoreCleanRun(s0: Store, s: Store, run: RunArgs, taken: nat)
    requires DistinctPks(s.messages) && Clean(run)
    requires s.messages == s0.messages && Backlog(s) == Beyond(Backlog(s0), taken)
    ensures var t := AfterRun(s, run); t.messages == s0.messages && Backlog(t) == Beyond(Backlog(s0), taken + run.limit)
  {
    CleanRunTakesOldest(s, run);
    BeyondAdds(Backlog(s0), taken, run.limit);
  }

  /** When no run has a fault, exactly the oldest messages are taken. */
  lemma {:induction false} CleanRunsTakeOldest(s0: Store, runs: seq<RunArgs>)
    requires DistinctPks(s0.messages) && forall run <- runs :: Clean(run)
    ensures var t := AfterRuns(s0, runs);
      t.messages == s0.messages && Backlog(t) == Beyond(Backlog(s0), CleanCapacity(runs))
  {
    if runs != [] {
      var n := |runs| - 1;
      assert Clean(runs[n]) && forall run <- runs[..n] :: run in runs;
      CleanRunsTakeOldest(s0, runs[..n]);
      OneMoreCleanRun(s0, AfterRuns(s0, runs[..n]), runs[n], CleanCapacity(runs[..n]));
    }
  }

  lemma OnceMore(n: nat, limit: nat)
    ensures (n + 1) * limit == n * limit + limit
  {
  }

  /** Runs without faults and with at least the same limit: their number times the limit. */
  lemma {:induction false} CapacityOfSameLimit(runs: seq<RunArgs>, limit: nat)
    requires forall run <- runs :: Clean(run) && limit <= run.limit
    ensures |runs| * limit <= CleanCapacity(runs)
  {
    if runs != [] {
      var n := |runs| - 1;
      assert runs[n] in runs && forall run <- runs[..n] :: run in runs;
      CapacityOfSameLimit(runs[..n], limit);
      OnceMore(n, limit);
    }
  }

  lemma NothingPending(t: Store, again: RunArgs)
    requires Backlog(t) == []
    ensures forall m <- t.messages :: m.fromMe || m.pk in t.processed
    ensures AfterRun(t, again) == t
  {
    forall m <- t.messages ensures m.fromMe || m.pk in t.processed { PendingHolds(t.messages, t.processed, m); }
  }

  /** The message is in exactly one marked batch, the one at `i`, whose facts are all in the queue. */
  ghost predicate Delivered(m: Message, h: seq<BatchRan>, i: nat, queue: seq<Fact>) {
    && i < |h| && h[i].marked && m.pk in Pks(h[i].messages) && FactsIn(h[i], queue)
    && forall j | 0 <= j < |h| && h[j].marked && m.pk in Pks(h[j].messages) :: j == i
  }

  ghost predicate AllDelivered(s0: Store, h: seq<BatchRan>, queue: seq<Fact>) {
    forall m <- Backlog(s0) :: exists i :: Delivered(m, h, i, queue)
  }

  /** Retries converge: once the limits of the runs without faults add up to the backlog, wherever they stand among
      runs with any faults, every incoming message is marked; each one that was not marked before went through exactly
      one marked batch, and the facts of that batch are in the queue; no key is queued twice, and nothing that a batch
      did not hand over; and every further run changes nothing. */
  lemma RetriesConverge(s0: Store, runs: seq<RunArgs>, again: RunArgs)
    requires DistinctPks(s0.messages) && UniqueFacts(s0.queue) && forall run <- runs :: KeepsItsWord(run.deps.enqueue)
    requires |Backlog(s0)| <= CleanCapacity(runs)
    ensures var t, h := AfterRuns(s0, runs), History(s0, runs);
      && Accounts(s0, t, h)
      && (forall m <- s0.messages :: m.fromMe || m.pk in t.processed)
      && AllDelivered(s0, h, t.queue) && AfterRun(t, again) == t
  {
    var t, h := AfterRuns(s0, runs), History(s0, runs);
    RunsAreAccounted(s0, runs);
    BacklogDrains(s0, runs);
    NothingPending(t, again);
    forall m <- Backlog(s0) ensures exists i :: Delivered(m, h, i, t.queue) {
      PendingHolds(s0.messages, s0.processed, m);
      DeliveredOnce(s0, t, h, m);
    }
  }

  lemma DeliveredOnce(s0: Store, t: Store, h: seq<BatchRan>, m: Message)
    requires Accounts(s0, t, h) && m.pk in t.processed && m.pk !in s0.processed
    ensures exists i :: Delivered(m, h, i, t.queue)
  {
    assert MarkedBy(h, m.pk);
    var i :| 0 <= i < |h| && h[i].marked && m.pk in Pks(h[i].messages);
    assert Delivered(m, h, i, t.queue);
  }

  /** Without them the backlog may never shrink: while the oldest messages, as many as the limits allow, are of chats
      whose extraction throws, no run changes anything, and what lies behind them is never fetched. */
  lemma {:induction false} FailingChatsStarveTheRest(s0: Store, runs: seq<RunArgs>)
    requires forall run <- runs, m <- Fetched(s0, run.limit) :: run.deps.extractFault(m.chat).Some?
    ensures AfterRuns(s0, runs) == s0
  {
    if runs != [] {
      var n := |runs| - 1;
      assert runs[n] in runs && forall run <- runs[..n] :: run in runs;
      FailingChatsStarveTheRest(s0, runs[..n]);
      var fetched := Fetched(s0, runs[n].limit);
      forall chat <- Chats(fetched) ensures runs[n].deps.extractFault(chat).Some? {
        ChatsHold(fetched, chat);
        OfChatHolds(fetched, chat, OfChat(fetched, chat)[0]);
      }
      AllThrow(s0, fetched, Chats(fetched), runs[n]);
    }
  }

  lemma {:induction false} AllThrow(s: Store, fetched: seq<Message>, chats: seq<string>, run: RunArgs)
    requires forall chat <- chats :: run.deps.extractFault(chat).Some?
    ensures AfterBatches(s, fetched, chats, run.deps, run.dryRun) == s
  {
    if chats != [] {
      var n := |chats| - 1;
      assert chats[n] in chats && forall chat <- chats[..n] :: chat in chats;
      AllThrow(s, fetched, chats[..n], run);
    }
  }
}
