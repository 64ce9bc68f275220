/** When extractor and validator always find the same in the same batch, and the backlog fits the limit of every run,
    the batch of a chat is the same in every run, and retries end in a queue that is known beforehand. */
module EnrichmentOutcome {
  import opened Enrichment
  import opened EnrichmentSafety
  import opened EnrichmentRuns

  /** The unmarked incoming messages of a chat. */
  function Group(s: Store, chat: string): seq<Message> {
    OfChat(Backlog(s), chat)
  }

  lemma GroupHolds(s: Store, chat: string, m: Message)
    ensures m in Group(s, chat) <==> m in s.messages && m.chat == chat && m.pk !in s.processed && !m.fromMe
  {
    OfChatHolds(Backlog(s), chat, m);
    PendingHolds(s.messages, s.processed, m);
  }

  /** The group of a chat depends only on which of its messages are marked. */
  lemma {:induction false} GroupAgrees(messages: seq<Message>, p: set<int>, q: set<int>, chat: string)
    requires forall m <- messages | m.chat == chat && !m.fromMe :: m.pk in p <==> m.pk in q
    ensures OfChat(Pending(messages, p), chat) == OfChat(Pending(messages, q), chat)
  {
    if messages != [] {
      var n := |messages| - 1;
      assert forall m <- messages[..n] :: m in messages;
      GroupAgrees(messages[..n], p, q, chat);
      GroupOneMore(messages, p, chat);
      GroupOneMore(messages, q, chat);
      assert messages[n] in messages;
    }
  }

  lemma GroupOneMore(messages: seq<Message>, p: set<int>, chat: string)
    requires messages != []
    ensures var n := |messages| - 1; var m := messages[n];
      OfChat(Pending(messages, p), chat) == OfChat(Pending(messages[..n], p), chat)
        + if m.pk !in p && !m.fromMe && m.chat == chat then [m] else []
  {
    var n := |messages| - 1;
    var last := if messages[n].pk !in p && !messages[n].fromMe then [messages[n]] else [];
    OfChatAppend(Pending(messages[..n], p), last, chat);
    if last != [] { assert last[..0] == []; }
  }

  /** A batch changes the group of no other chat, and empties its own exactly when it is marked. */
  lemma BatchMovesGroup(s: Store, chat: string, run: RunArgs, other: string)
    requires DistinctPks(s.messages)
    ensures var t, b := AfterBatch(s, chat, Group(s, chat), run.deps, run.dryRun),
      BatchOf(s, chat, Group(s, chat), run);
      t.messages == s.messages && Group(t, other) == if other == chat && b.marked then [] else Group(s, other)
  {
    var batch := Group(s, chat);
    var t := AfterBatch(s, chat, batch, run.deps, run.dryRun);
    if BatchOf(s, chat, batch, run).marked {
      if other == chat {
        if Group(t, chat) != [] {
          GroupHolds(t, chat, Group(t, chat)[0]);
          GroupHolds(s, chat, Group(t, chat)[0]);
          assert false;
        }
      } else {
        forall m <- s.messages | m.chat == other && !m.fromMe ensures m.pk in s.processed <==> m.pk in t.processed {
          if m.pk in Pks(batch) {
            var m' :| m' in batch && m'.pk == m.pk;
            GroupHolds(s, chat, m');
            SamePkSameMessage(s.messages, m, m');
          }
        }
        GroupAgrees(s.messages, s.processed, t.processed, other);
      }
    }
  }

  // Convergence. `s0` is the store before the first run.

  ghost predicate SameFinder(a: Deps, b: Deps) {
    && (forall batch :: a.extract(batch) == b.extract(batch))
    && (forall facts, batch :: a.validate(facts, batch) == b.validate(facts, batch))
  }

  /** A run that finds what `finder` finds, and whose limit covers the backlog of `s0`. */
  ghost predicate Retry(s0: Store, finder: Deps, run: RunArgs) {
    SameFinder(finder, run.deps) && KeepsItsWord(run.deps.enqueue) && |Backlog(s0)| <= run.limit
  }

  /** The key is in the queue of `s0`, or is that of a fact of one of its groups. */
  ghost predicate Expected(s0: Store, finder: Deps, k: FactKey) {
    Queued(s0.queue, k) || exists chat :: Group(s0, chat) != [] && Queued(ValidFacts(Group(s0, chat), finder), k)
  }

  /** The chat is as it was, or done: no message left, every fact queued. */
  ghost predicate ChatOk(s0: Store, s: Store, finder: Deps, chat: string) {
    || Group(s, chat) == Group(s0, chat)
    || (Group(s, chat) == [] && forall k :: Queued(ValidFacts(Group(s0, chat), finder), k) ==> Queued(s.queue, k))
  }

  ghost predicate Converging(s0: Store, s: Store, finder: Deps) {
    && s.messages == s0.messages && DistinctPks(s.messages) && UniqueFacts(s.queue)
    && s0.queue <= s.queue
    && (forall k | Queued(s.queue, k) :: Expected(s0, finder, k))
    && forall chat :: ChatOk(s0, s, finder, chat)
  }

  lemma QueuedStays(queue: seq<Fact>, after: seq<Fact>, k: FactKey)
    requires queue <= after && Queued(queue, k)
    ensures Queued(after, k)
  {
    var f :| f in queue && KeyOf(f) == k;
    assert f in after;
  }

  /** A batch keeps every chat as it was or done, and touches no other group. */
  lemma BatchConverges(s0: Store, s: Store, finder: Deps, run: RunArgs, chat: string)
    requires Converging(s0, s, finder) && SameFinder(finder, run.deps) && KeepsItsWord(run.deps.enqueue)
    requires Group(s, chat) != []
    ensures var t := AfterBatch(s, chat, Group(s, chat), run.deps, run.dryRun);
      Converging(s0, t, finder) && forall other | other != chat :: Group(t, other) == Group(s, other)
  {
    var batch := Group(s, chat);
    var t := AfterBatch(s, chat, batch, run.deps, run.dryRun);
    assert ChatOk(s0, s, finder, chat);
    assert ValidFacts(batch, run.deps) == ValidFacts(Group(s0, chat), finder);
    BatchQueue(s, chat, batch, run);
    forall other ensures ChatOk(s0, t, finder, other) && (other != chat ==> Group(t, other) == Group(s, other)) {
      assert ChatOk(s0, s, finder, other);
      BatchMovesGroup(s, chat, run, other);
      forall k | Queued(s.queue, k) ensures Queued(t.queue, k) { QueuedStays(s.queue, t.queue, k); }
    }
    BatchMovesGroup(s, chat, run, chat);
  }

  /** After the batches of `done` the chats still to come have their groups untouched. */
  ghost predicate Midway(s0: Store, s: Store, finder: Deps, run: RunArgs, done: seq<string>) {
    var t := AfterBatches(s, Backlog(s), done, run.deps, run.dryRun);
    Converging(s0, t, finder) && forall chat | chat !in done :: Group(t, chat) == Group(s, chat)
  }

  lemma {:induction false} BatchesConverge(s0: Store, s: Store, finder: Deps, run: RunArgs, chats: seq<string>)
    requires Converging(s0, s, finder) && SameFinder(finder, run.deps) && KeepsItsWord(run.deps.enqueue)
    requires forall i, j | 0 <= i < j < |chats| :: chats[i] != chats[j]
    requires forall chat <- chats :: Group(s, chat) != []
    ensures Midway(s0, s, finder, run, chats)
  {
    if chats != [] {
      var n := |chats| - 1;
      BatchesConverge(s0, s, finder, run, chats[..n]);
      assert chats[n] !in chats[..n] && chats == chats[..n] + [chats[n]];
      var before := AfterBatches(s, Backlog(s), chats[..n], run.deps, run.dryRun);
      assert Group(before, chats[n]) == OfChat(Backlog(s), chats[n]);
      BatchConverges(s0, before, finder, run, chats[n]);
    }
  }

  lemma {:induction false} RunsConverge(s0: Store, finder: Deps, runs: seq<RunArgs>)
    requires DistinctPks(s0.messages) && UniqueFacts(s0.queue) && forall run <- runs :: Retry(s0, finder, run)
    ensures Converging(s0, AfterRuns(s0, runs), finder)
  {
    if runs != [] {
      var n := |runs| - 1;
      assert runs[n] in runs && forall run <- runs[..n] :: run in runs;
      RunsConverge(s0, finder, runs[..n]);
      BacklogDrains(s0, runs[..n]);
      var s := AfterRuns(s0, runs[..n]);
      ChatsHold(Backlog(s), "");
      forall chat <- Chats(Backlog(s)) ensures Group(s, chat) != [] { ChatsHold(Backlog(s), chat); }
      BatchesConverge(s0, s, finder, runs[n], Chats(Backlog(s)));
    }
  }

  lemma DoneIsExpected(s0: Store, t: Store, finder: Deps, k: FactKey)
    requires Converging(s0, t, finder) && Backlog(t) == []
    ensures Queued(t.queue, k) <==> Expected(s0, finder, k)
  {
    if Queued(s0.queue, k) { QueuedStays(s0.queue, t.queue, k); }
    if Expected(s0, finder, k) && !Queued(s0.queue, k) {
      var chat :| Group(s0, chat) != [] && Queued(ValidFacts(Group(s0, chat), finder), k);
      assert ChatOk(s0, t, finder, chat);
    }
  }

  /** After any retries with any faults, one of them at least without, the queue holds exactly what it held and every
      fact of every group of the first store, each once, and every incoming message is marked: whatever failed on the
      way, the result is that of one run without faults. */
  lemma SameFindingsConverge(s0: Store, finder: Deps, runs: seq<RunArgs>)
    requires DistinctPks(s0.messages) && UniqueFacts(s0.queue) && forall run <- runs :: Retry(s0, finder, run)
    requires exists run <- runs :: Clean(run)
    ensures var t := AfterRuns(s0, runs);
      && UniqueFacts(t.queue) && (forall k :: Queued(t.queue, k) <==> Expected(s0, finder, k))
      && forall m <- t.messages :: m.fromMe || m.pk in t.processed
  {
    var t := AfterRuns(s0, runs);
    RunsConverge(s0, finder, runs);
    BacklogDrains(s0, runs);
    var run :| run in runs && Clean(run);
    CapacityOfOne(runs, run);
    assert Retry(s0, finder, run);
    NothingPending(t, run);
    forall k ensures Queued(t.queue, k) <==> Expected(s0, finder, k) { DoneIsExpected(s0, t, finder, k); }
  }

  lemma {:induction false} CapacityOfOne(runs: seq<RunArgs>, run: RunArgs)
    requires run in runs && Clean(run)
    ensures run.limit <= CleanCapacity(runs)
  {
    if runs[|runs| - 1] != run { CapacityOfOne(runs[..|runs| - 1], run); }
  }
}
