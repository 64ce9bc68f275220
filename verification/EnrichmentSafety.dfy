/** One run of the enrichment backfill: groups partition the messages, a batch is marked only when its facts are
    queued, and the summary counts what was marked. */
module EnrichmentSafety {
  import opened Wrappers
  import opened Enrichment

  // Grouping.

  lemma {:induction false} OfChatHolds(messages: seq<Message>, chat: string, m: Message)
    ensures m in OfChat(messages, chat) <==> m in messages && m.chat == chat
  {
    if messages != [] {
      var n := |messages| - 1;
      OfChatHolds(messages[..n], chat, m);
      assert messages == messages[..n] + [messages[n]];
    }
  }

  lemma {:induction false} OfChatAppend(a: seq<Message>, b: seq<Message>, chat: string)
    ensures OfChat(a + b, chat) == OfChat(a, chat) + OfChat(b, chat)
  {
    if b == [] {
      assert a + b == a;
    } else {
      var n := |b| - 1;
      assert (a + b)[..|a + b| - 1] == a + b[..n];
      OfChatAppend(a, b[..n], chat);
    }
  }

  lemma {:induction false} ChatsHold(messages: seq<Message>, chat: string)
    ensures chat in Chats(messages) <==> OfChat(messages, chat) != []
    ensures forall i, j | 0 <= i < j < |Chats(messages)| :: Chats(messages)[i] != Chats(messages)[j]
  {
    if messages != [] {
      ChatsHold(messages[..|messages| - 1], chat);
    }
  }

  /** The groups of the chats, one after another. */
  function Regrouped(messages: seq<Message>, chats: seq<string>): seq<Message> {
    if chats == [] then []
    else Regrouped(messages, chats[..|chats| - 1]) + OfChat(messages, chats[|chats| - 1])
  }

  lemma {:induction false} RegroupedCount(messages: seq<Message>, chats: seq<string>, m: Message)
    requires forall i, j | 0 <= i < j < |chats| :: chats[i] != chats[j]
    ensures multiset(Regrouped(messages, chats))[m]
      == if m.chat in chats then multiset(OfChat(messages, m.chat))[m] else 0
  {
    if chats != [] {
      var n := |chats| - 1;
      RegroupedCount(messages, chats[..n], m);
      OfChatHolds(messages, chats[n], m);
      assert chats == chats[..n] + [chats[n]];
    }
  }

  lemma {:induction false} OfChatCount(messages: seq<Message>, m: Message)
    ensures multiset(OfChat(messages, m.chat))[m] == multiset(messages)[m]
  {
    if messages != [] {
      var n := |messages| - 1;
      OfChatCount(messages[..n], m);
      assert messages == messages[..n] + [messages[n]];
    }
  }

  /** Grouping partitions the messages: the groups together hold every message exactly as often as the list, no
      chat has two groups, and the messages of two lists are grouped in the order of the lists. */
  lemma GroupsPartition(messages: seq<Message>)
    ensures multiset(Regrouped(messages, Chats(messages))) == multiset(messages)
    ensures forall i, j | 0 <= i < j < |Chats(messages)| :: Chats(messages)[i] != Chats(messages)[j]
    ensures forall a, b, chat | messages == a + b :: OfChat(messages, chat) == OfChat(a, chat) + OfChat(b, chat)
  {
    ChatsHold(messages, "");
    forall m: Message ensures multiset(Regrouped(messages, Chats(messages)))[m] == multiset(messages)[m] {
      RegroupedCount(messages, Chats(messages), m);
      ChatsHold(messages, m.chat);
      OfChatCount(messages, m);
    }
    forall a, b, chat | messages == a + b ensures OfChat(messages, chat) == OfChat(a, chat) + OfChat(b, chat) {
      OfChatAppend(a, b, chat);
    }
  }

  // The queue.

  ghost predicate UniqueFacts(queue: seq<Fact>) {
    forall i, j | 0 <= i < j < |queue| :: KeyOf(queue[i]) != KeyOf(queue[j])
  }

  lemma QueuedAppend(a: seq<Fact>, f: Fact, k: FactKey)
    ensures Queued(a + [f], k) <==> Queued(a, k) || k == KeyOf(f)
  {
    if Queued(a, k) {
      var g :| g in a && KeyOf(g) == k;
      assert g in a + [f];
    }
    assert f in a + [f];
  }

  lemma UniqueAppend(queue: seq<Fact>, f: Fact)
    requires UniqueFacts(queue) && !Queued(queue, KeyOf(f))
    ensures UniqueFacts(queue + [f])
  {
    forall i | 0 <= i < |queue| ensures KeyOf(queue[i]) != KeyOf(f) { assert queue[i] in queue; }
  }

  lemma {:induction false} EnqueueHolds(queue: seq<Fact>, facts: seq<Fact>, k: FactKey)
    ensures Queued(Enqueue(queue, facts), k) <==> Queued(queue, k) || Queued(facts, k)
  {
    if facts != [] {
      var n := |facts| - 1;
      EnqueueHolds(queue, facts[..n], k);
      QueuedAppend(facts[..n], facts[n], k);
      assert facts == facts[..n] + [facts[n]];
      QueuedAppend(Enqueue(queue, facts[..n]), facts[n], k);
    }
  }

  lemma {:induction false} EnqueueGrows(queue: seq<Fact>, facts: seq<Fact>)
    ensures queue <= Enqueue(queue, facts) && (UniqueFacts(queue) ==> UniqueFacts(Enqueue(queue, facts)))
  {
    if facts != [] {
      var n := |facts| - 1;
      EnqueueGrows(queue, facts[..n]);
      var before := Enqueue(queue, facts[..n]);
      if UniqueFacts(queue) && !Queued(before, KeyOf(facts[n])) { UniqueAppend(before, facts[n]); }
    }
  }

  /** Every fact ends up in the queue, nothing else does, nothing leaves it, and no key gets in twice. */
  lemma {:induction false} EnqueueKeeps(queue: seq<Fact>, facts: seq<Fact>)
    ensures var q := Enqueue(queue, facts);
      && queue <= q && (UniqueFacts(queue) ==> UniqueFacts(q))
      && forall k :: Queued(q, k) <==> Queued(queue, k) || Queued(facts, k)
  {
    EnqueueGrows(queue, facts);
    forall k ensures Queued(Enqueue(queue, facts), k) <==> Queued(queue, k) || Queued(facts, k) {
      EnqueueHolds(queue, facts, k);
    }
  }

  /** What a caller may rely on whatever an enqueue reports: nothing leaves the queue, no key gets in twice, only
      the facts it was given get in, and when the accounting adds up all of them are in. */
  ghost predicate KeepsItsWord(enqueue: (seq<Fact>, seq<Fact>) -> Enqueued) {
    forall queue, facts :: Honest(queue, facts, enqueue(queue, facts))
  }

  ghost predicate Honest(queue: seq<Fact>, facts: seq<Fact>, e: Enqueued) {
    && queue <= e.queue && (UniqueFacts(queue) ==> UniqueFacts(e.queue))
    && (forall k | Queued(e.queue, k) :: Queued(queue, k) || Queued(facts, k))
    && (AccountingOk(e.result, |facts|) ==> forall k | Queued(facts, k) :: Queued(e.queue, k))
  }

  /** The enqueue of the program keeps its word, and its accounting always adds up. */
  lemma KeyedEnqueueKeepsItsWord(queue: seq<Fact>, facts: seq<Fact>)
    ensures KeepsItsWord(KeyedEnqueue) && AccountingOk(KeyedEnqueue(queue, facts).result, |facts|)
  {
    forall q, fs ensures Honest(q, fs, KeyedEnqueue(q, fs)) { EnqueueKeeps(q, fs); }
  }

  // One batch.

  /** The batch failed with a value of empty text before anything was queued. */
  predicate SilentFailure(chat: string, messages: seq<Message>, deps: Deps) {
    var early := Early(chat, messages, deps, false);
    early.Some? && early.value.text == ""
  }

  /** In a real run a batch counts as ok exactly when its messages are marked, but for one case: a value of empty
      text thrown before anything was queued leaves the messages unmarked and the batch counted ok. */
  lemma OkIffMarked(r: BatchResult, s: Store, chat: string, messages: seq<Message>, deps: Deps, strict: bool)
    requires Reports(r, s, chat, messages, deps, false, strict)
    ensures !CountsFailed(r, false) <==> r.marked || SilentFailure(chat, messages, deps)
    ensures r.marked ==> !SilentFailure(chat, messages, deps)
  {
  }

  function MarkedCount(rs: seq<BatchResult>): nat {
    if rs == [] then 0 else MarkedCount(rs[..|rs| - 1]) + if rs[|rs| - 1].marked then 1 else 0
  }

  function SilentCount(fetched: seq<Message>, chats: seq<string>, deps: Deps): nat {
    if chats == [] then 0
    else
      var n := |chats| - 1;
      SilentCount(fetched, chats[..n], deps) + if SilentFailure(chats[n], OfChat(fetched, chats[n]), deps) then 1 else 0
  }

  /** Over a whole real run: `batchesOk` is the number of batches marked plus the number of silent failures. */
  lemma {:induction false} OkCountsMarked(rs: seq<BatchResult>, s: Store, fetched: seq<Message>, chats: seq<string>,
                                          deps: Deps, strict: bool)
    requires AllReport(rs, s, fetched, chats, deps, false, strict)
    ensures |OkOnly(rs, false)| == MarkedCount(rs) + SilentCount(fetched, chats, deps)
  {
    if rs != [] && chats != [] {
      var n, m := |rs| - 1, |chats| - 1;
      OkCountsMarked(rs[..n], s, fetched, chats[..m], deps, strict);
      OkIffMarked(rs[n], AfterBatches(s, fetched, chats[..m], deps, false), chats[m], OfChat(fetched, chats[m]), deps,
        strict);
    }
  }

  /** The case happens: an extractor that throws the empty string. */
  lemma SilentFailureHappens(s: Store, chat: string, messages: seq<Message>)
    ensures exists deps: Deps, r: BatchResult ::
      Reports(r, s, chat, messages, deps, false, true) && !CountsFailed(r, false) && !r.marked
      && AfterBatch(s, chat, messages, deps, false) == s
  {
    var none: string -> Option<Thrown> := (c: string) => None;
    var throws: string -> Option<Thrown> := (c: string) => Some(Thrown(OtherError, ""));
    var deps := Deps((b: seq<Message>) => [], (f: seq<Fact>, b: seq<Message>) => [], KeyedEnqueue, throws, none, none,
      none);
    var r := BatchResult(chat, |messages|, 0, 0, None, false, Some(""), None);
    assert EndOf(s.queue, chat, messages, deps, false) == ThrewBeforeQueue(Thrown(OtherError, ""));
    assert Reports(r, s, chat, messages, deps, false, true);
    assert !CountsFailed(r, false) && !r.marked;
    assert AfterBatch(s, chat, messages, deps, false) == s;
  }

  /** Marked only when queued: the marks of a batch change exactly when it is reported marked; a real batch that
      throws nothing is marked exactly when it had nothing to queue or its accounting adds up; and if the enqueue
      keeps its word, every validated fact of a marked batch is in the queue. A dry run changes nothing. */
  lemma MarkedMeansQueued(r: BatchResult, s: Store, chat: string, messages: seq<Message>, deps: Deps, dryRun: bool,
                          strict: bool)
    requires Reports(r, s, chat, messages, deps, dryRun, strict)
    ensures var t, valid := AfterBatch(s, chat, messages, deps, dryRun), ValidFacts(messages, deps);
      && t.processed == s.processed + (if r.marked then Pks(messages) else {})
      && (r.marked ==> (r.enqueue.None? <==> valid == []))
      && (!dryRun && r.error.None? ==> (r.marked <==> r.enqueue.None? || AccountingOk(r.enqueue.value, |valid|)))
      && (dryRun ==> t == s && !r.marked)
      && (KeepsItsWord(deps.enqueue) ==>
            && (r.marked ==> forall f <- valid :: Queued(t.queue, KeyOf(f)))
            && s.queue <= t.queue && (UniqueFacts(s.queue) ==> UniqueFacts(t.queue)))
  {
    var valid := ValidFacts(messages, deps);
    if KeepsItsWord(deps.enqueue) {
      assert Honest(s.queue, valid, deps.enqueue(s.queue, valid));
      assert forall f <- valid :: Queued(valid, KeyOf(f));
    }
  }

  // Messages.

  ghost predicate DistinctPks(messages: seq<Message>) {
    forall i, j | 0 <= i < j < |messages| :: messages[i].pk != messages[j].pk
  }

  lemma SamePkSameMessage(messages: seq<Message>, m: Message, m': Message)
    requires DistinctPks(messages) && m in messages && m' in messages && m.pk == m'.pk
    ensures m == m'
  {
  }

  lemma {:induction false} PendingHolds(messages: seq<Message>, processed: set<int>, m: Message)
    ensures m in Pending(messages, processed) <==> m in messages && m.pk !in processed && !m.fromMe
  {
    if messages != [] {
      var n := |messages| - 1;
      PendingHolds(messages[..n], processed, m);
      assert messages == messages[..n] + [messages[n]];
    }
  }

  // Accounting.

  lemma {:induction false} PksCount(messages: seq<Message>)
    requires DistinctPks(messages)
    ensures |Pks(messages)| == |messages|
  {
    if messages != [] {
      var n := |messages| - 1;
      PksCount(messages[..n]);
      assert messages == messages[..n] + [messages[n]];
      assert Pks(messages) == Pks(messages[..n]) + {messages[n].pk};
      assert messages[n].pk !in Pks(messages[..n]);
    }
  }

  lemma {:induction false} OfChatDistinct(messages: seq<Message>, chat: string)
    requires DistinctPks(messages)
    ensures DistinctPks(OfChat(messages, chat))
  {
    if messages != [] {
      var n := |messages| - 1;
      OfChatDistinct(messages[..n], chat);
      forall m <- OfChat(messages[..n], chat) ensures m.pk != messages[n].pk { OfChatHolds(messages[..n], chat, m); }
      assert forall i | 0 <= i < |OfChat(messages[..n], chat)| ::
        OfChat(messages[..n], chat)[i] in OfChat(messages[..n], chat);
    }
  }

  predicate FromChats(fetched: seq<Message>, chats: seq<string>, pk: int) {
    exists m <- fetched :: m.pk == pk && m.chat in chats
  }

  /** The marks of one more chat are new ones. */
  lemma NewMark(fetched: seq<Message>, chats: seq<string>, chat: string, pk: int)
    requires DistinctPks(fetched) && chat !in chats && pk in Pks(OfChat(fetched, chat))
    ensures !FromChats(fetched, chats, pk) && exists m <- fetched :: m.pk == pk && m.chat == chat
  {
    var m :| m in OfChat(fetched, chat) && m.pk == pk;
    OfChatHolds(fetched, chat, m);
    if FromChats(fetched, chats, pk) {
      var m' :| m' in fetched && m'.pk == pk && m'.chat in chats;
      SamePkSameMessage(fetched, m, m');
    }
  }

  lemma {:induction false} BatchesMark(rs: seq<BatchResult>, s: Store, fetched: seq<Message>, chats: seq<string>,
                                       deps: Deps, dryRun: bool, strict: bool)
    requires AllReport(rs, s, fetched, chats, deps, dryRun, strict)
    requires DistinctPks(fetched) && (forall m <- fetched :: m.pk !in s.processed)
    requires forall i, j | 0 <= i < j < |chats| :: chats[i] != chats[j]
    ensures var t := AfterBatches(s, fetched, chats, deps, dryRun);
      && s.processed <= t.processed && |t.processed - s.processed| == MarkedTotal(rs)
      && (forall pk <- t.processed - s.processed :: FromChats(fetched, chats, pk))
  {
    if chats != [] {
      var n := |chats| - 1;
      var r := rs[|rs| - 1];
      var before, batch := AfterBatches(s, fetched, chats[..n], deps, dryRun), OfChat(fetched, chats[n]);
      BatchesMark(rs[..|rs| - 1], s, fetched, chats[..n], deps, dryRun, strict);
      MarkedMeansQueued(r, before, chats[n], batch, deps, dryRun, strict);
      assert r.messagesInBatch == |batch|;
      MarksAdd(s.processed, before.processed, AfterBatches(s, fetched, chats, deps, dryRun).processed, fetched, chats,
        r.marked);
    }
  }

  lemma MoreChats(fetched: seq<Message>, chats: seq<string>, more: seq<string>, pk: int)
    requires FromChats(fetched, chats, pk) && forall chat <- chats :: chat in more
    ensures FromChats(fetched, more, pk)
  {
  }

  lemma MarkIsNew(p: set<int>, q: set<int>, fetched: seq<Message>, chats: seq<string>, chat: string, pk: int)
    requires DistinctPks(fetched) && chat !in chats && pk in Pks(OfChat(fetched, chat))
    requires (forall m <- fetched :: m.pk !in p) && forall k <- q - p :: FromChats(fetched, chats, k)
    ensures pk !in q && FromChats(fetched, [chat], pk)
  {
    NewMark(fetched, chats, chat, pk);
    var m :| m in fetched && m.pk == pk && m.chat == chat;
    assert m.pk !in p;
    assert pk in q ==> pk in q - p;
  }

  lemma MarksAdd(p: set<int>, q: set<int>, t: set<int>, fetched: seq<Message>, chats: seq<string>, marked: bool)
    requires chats != [] && DistinctPks(fetched) && (forall m <- fetched :: m.pk !in p) && p <= q
    requires forall i, j | 0 <= i < j < |chats| :: chats[i] != chats[j]
    requires forall pk <- q - p :: FromChats(fetched, chats[..|chats| - 1], pk)
    requires t == q + if marked then Pks(OfChat(fetched, chats[|chats| - 1])) else {}
    ensures p <= t && |t - p| == |q - p| + if marked then |OfChat(fetched, chats[|chats| - 1])| else 0
    ensures forall pk <- t - p :: FromChats(fetched, chats, pk)
  {
    var n := |chats| - 1;
    var marks := Pks(OfChat(fetched, chats[n]));
    assert chats == chats[..n] + [chats[n]];
    forall pk <- q - p ensures FromChats(fetched, chats, pk) { MoreChats(fetched, chats[..n], chats, pk); }
    forall pk <- marks ensures pk !in q && FromChats(fetched, chats, pk) {
      MarkIsNew(p, q, fetched, chats[..n], chats[n], pk);
      MoreChats(fetched, [chats[n]], chats, pk);
    }
    OfChatDistinct(fetched, chats[n]);
    PksCount(OfChat(fetched, chats[n]));
    NewMarksCount(p, q, t, if marked then marks else {});
  }

  lemma NewMarksCount(p: set<int>, q: set<int>, t: set<int>, marks: set<int>)
    requires p <= q && t == q + marks && marks !! q
    ensures p <= t && t - p == (q - p) + marks && |t - p| == |q - p| + |marks|
  {
    assert t - p == (q - p) + marks;
  }

  lemma {:induction false} PendingDistinct(messages: seq<Message>, processed: set<int>)
    requires DistinctPks(messages)
    ensures DistinctPks(Pending(messages, processed))
  {
    if messages != [] {
      var n := |messages| - 1;
      PendingDistinct(messages[..n], processed);
      var p := Pending(messages[..n], processed);
      forall i | 0 <= i < |p| ensures p[i].pk != messages[n].pk { PendingHolds(messages[..n], processed, p[i]); }
    }
  }

  /** The summary counts marks: `messagesProcessed` is the number of messages a run marks, and every message it
      marks is one it fetched. */
  lemma SummaryCountsMarks(summary: Summary, s: Store, t: Store, limit: nat, deps: Deps, dryRun: bool, strict: bool)
    requires DistinctPks(s.messages)
    requires Ran(summary, t, s, Fetched(s, limit), Chats(Fetched(s, limit)), deps, dryRun, strict)
    ensures && s.processed <= t.processed && |t.processed - s.processed| == summary.messagesProcessed
      && forall pk <- t.processed - s.processed :: exists m <- Fetched(s, limit) :: m.pk == pk
  {
    var pending, fetched := Pending(s.messages, s.processed), Fetched(s, limit);
    PendingDistinct(s.messages, s.processed);
    forall m <- fetched ensures m.pk !in s.processed { PendingHolds(s.messages, s.processed, m); }
    ChatsHold(fetched, "");
    BatchesMark(summary.perChat, s, fetched, Chats(fetched), deps, dryRun, strict);
    forall pk <- t.processed - s.processed
      ensures exists m <- fetched :: m.pk == pk
    {
      assert FromChats(fetched, Chats(fetched), pk);
    }
  }
}
