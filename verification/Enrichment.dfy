/** The enrichment backfill of `scripts/backfill-enrichment.ts`: unprocessed messages are grouped by chat, every
    batch goes through extraction, validation and the export queue, and is marked when its accounting adds up.
    Any of the four may throw; the queue and the marks are transactional. */
module Enrichment {
  import opened Wrappers

  datatype Message = Message(pk: int, chat: string, fromMe: bool, text: string)

  datatype Fact = Fact(chat: string, sender: string, text: string)

  /** The `factId` of a fact, its hash taken to be injective. */
  datatype FactKey = FactKey(chat: string, sender: string, text: string)

  function KeyOf(f: Fact): FactKey {
    FactKey(f.chat, if f.sender == "" then "group" else f.sender, f.text)
  }

  /** The messages in the order they are fetched, which of them are marked, and the export queue. */
  datatype Store = Store(messages: seq<Message>, processed: set<int>, queue: seq<Fact>)

  datatype Stage = ProviderCall | JsonParse | SchemaShape | SchemaItemsAllDropped

  datatype ErrorClass = ExtractionError(stage: Stage) | ValidationError(stage: Stage) | OtherError

  /** A thrown value: its class and the text `message || String(err)` makes of it. */
  datatype Thrown = Thrown(class_: ErrorClass, text: string)

  datatype EnqueueResult = EnqueueResult(attempted: nat, inserted: nat, duplicates: nat, failed: nat)

  /** What an enqueue reports, and the queue it leaves. */
  datatype Enqueued = Enqueued(result: EnqueueResult, queue: seq<Fact>)

  /** The injected dependencies: what the extractor and the validator find, what the queue makes of facts, and what
      throws, chat by chat. */
  datatype Deps = Deps(
    extract: seq<Message> -> seq<Fact>, validate: (seq<Fact>, seq<Message>) -> seq<Fact>,
    enqueue: (seq<Fact>, seq<Fact>) -> Enqueued,
    extractFault: string -> Option<Thrown>, validateFault: string -> Option<Thrown>,
    enqueueFault: string -> Option<Thrown>, markFault: string -> Option<Thrown>)

  // Grouping.

  /** The messages of one chat, in order. */
  function OfChat(messages: seq<Message>, chat: string): seq<Message> {
    if messages == [] then []
    else
      var n := |messages| - 1;
      OfChat(messages[..n], chat) + if messages[n].chat == chat then [messages[n]] else []
  }

  /** The chats in the order of their first message. */
  function Chats(messages: seq<Message>): seq<string> {
    if messages == [] then []
    else
      var n := |messages| - 1;
      var earlier := Chats(messages[..n]);
      if messages[n].chat in earlier then earlier else earlier + [messages[n].chat]
  }

  function Groups(messages: seq<Message>): map<string, seq<Message>> {
    map chat <- Chats(messages) :: OfChat(messages, chat)
  }

  /** `groupByChatJid`; a `Map` keeps its keys in the order of insertion. */
  method GroupByChatJid(messages: seq<Message>) returns (order: seq<string>, byChat: map<string, seq<Message>>)
    ensures order == Chats(messages) && byChat == Groups(messages)
  {
    order, byChat := [], map[];
    for i := 0 to |messages|
      invariant order == Chats(messages[..i]) && byChat == Groups(messages[..i])
    {
      var m := messages[i];
      GroupsOneMore(messages[..i], m);
      assert messages[..i + 1] == messages[..i] + [m];
      if m.chat in byChat {
        byChat := byChat[m.chat := byChat[m.chat] + [m]];
      } else {
        order, byChat := order + [m.chat], byChat[m.chat := [m]];
      }
    }
    assert messages[..|messages|] == messages;
  }

  lemma {:induction false} NoGroup(messages: seq<Message>, chat: string)
    requires chat !in Chats(messages)
    ensures OfChat(messages, chat) == []
  {
    if messages != [] { NoGroup(messages[..|messages| - 1], chat); }
  }

  lemma OneMore(messages: seq<Message>, m: Message, chat: string)
    ensures OfChat(messages + [m], chat) == OfChat(messages, chat) + if m.chat == chat then [m] else []
    ensures Chats(messages + [m]) == if m.chat in Chats(messages) then Chats(messages) else Chats(messages) + [m.chat]
  {
    assert (messages + [m])[..|messages|] == messages;
  }

  lemma GroupsKeys(messages: seq<Message>, m: Message, chat: string)
    ensures chat in Groups(messages + [m]) <==> chat in Groups(messages) || chat == m.chat
  {
    OneMore(messages, m, chat);
  }

  lemma GroupsValue(messages: seq<Message>, m: Message, chat: string)
    requires chat in Groups(messages + [m])
    ensures Groups(messages + [m])[chat]
      == (if chat in Groups(messages) then Groups(messages)[chat] else []) + if chat == m.chat then [m] else []
  {
    OneMore(messages, m, chat);
    if chat !in Groups(messages) { NoGroup(messages, chat); }
  }

  lemma GroupsOneMore(messages: seq<Message>, m: Message)
    ensures Chats(messages + [m]) == if m.chat in Groups(messages) then Chats(messages) else Chats(messages) + [m.chat]
    ensures m.chat in Groups(messages) ==>
      Groups(messages + [m]) == Groups(messages)[m.chat := Groups(messages)[m.chat] + [m]]
    ensures m.chat !in Groups(messages) ==> Groups(messages + [m]) == Groups(messages)[m.chat := [m]]
  {
    OneMore(messages, m, m.chat);
    var before, after := Groups(messages), Groups(messages + [m]);
    var updated := before[m.chat := (if m.chat in before then before[m.chat] else []) + [m]];
    forall chat ensures chat in after <==> chat in updated { GroupsKeys(messages, m, chat); }
    forall chat <- after ensures after[chat] == updated[chat] {
      GroupsValue(messages, m, chat);
      if chat != m.chat { assert before[chat] + [] == before[chat]; }
    }
    assert after == updated;
  }

  // The export queue.

  /** `accountingOk`. */
  predicate AccountingOk(r: EnqueueResult, expected: nat) {
    r.failed == 0 && r.inserted + r.duplicates == expected
  }

  predicate Queued(queue: seq<Fact>, k: FactKey) {
    exists f <- queue :: KeyOf(f) == k
  }

  /** The queue after `INSERT OR IGNORE` of every fact. */
  function Enqueue(queue: seq<Fact>, facts: seq<Fact>): (after: seq<Fact>)
    ensures |queue| <= |after| <= |queue| + |facts|
  {
    if facts == [] then queue
    else
      var n := |facts| - 1;
      var q := Enqueue(queue, facts[..n]);
      if Queued(q, KeyOf(facts[n])) then q else q + [facts[n]]
  }

  /** `enqueueFacts` without a fault, as the dependency it is injected as. */
  function KeyedEnqueue(queue: seq<Fact>, facts: seq<Fact>): Enqueued {
    var after := Enqueue(queue, facts);
    Enqueued(EnqueueResult(|facts|, |after| - |queue|, |queue| + |facts| - |after|, 0), after)
  }

  /** `enqueueFacts` without a fault: every row is inserted or a duplicate. */
  method EnqueueFacts(queue: seq<Fact>, facts: seq<Fact>) returns (r: EnqueueResult, after: seq<Fact>)
    ensures Enqueued(r, after) == KeyedEnqueue(queue, facts)
    ensures AccountingOk(r, |facts|)
  {
    after := queue;
    var inserted, duplicates := 0, 0;
    for i := 0 to |facts|
      invariant after == Enqueue(queue, facts[..i])
      invariant inserted + duplicates == i && inserted == |after| - |queue|
    {
      assert facts[..i + 1][..i] == facts[..i];
      if Queued(after, KeyOf(facts[i])) {
        duplicates := duplicates + 1;
      } else {
        after, inserted := after + [facts[i]], inserted + 1;
      }
    }
    assert facts[..|facts|] == facts;
    r := EnqueueResult(|facts|, inserted, duplicates, 0);
  }

  // One batch.

  datatype BatchResult = BatchResult(
    chat: string, messagesInBatch: nat, factsExtracted: nat, factsValidated: nat, enqueue: Option<EnqueueResult>,
    marked: bool, error: Option<string>, strictFailure: Option<Stage>)

  function Pks(messages: seq<Message>): set<int> {
    set m <- messages :: m.pk
  }

  /** The facts that pass validation. */
  function ValidFacts(messages: seq<Message>, deps: Deps): seq<Fact> {
    if deps.extract(messages) == [] then [] else deps.validate(deps.extract(messages), messages)
  }

  /** What a batch throws before anything is queued, if it throws. */
  function Early(chat: string, messages: seq<Message>, deps: Deps, dryRun: bool): Option<Thrown> {
    if deps.extractFault(chat).Some? then deps.extractFault(chat)
    else if deps.extract(messages) != [] && deps.validateFault(chat).Some? then deps.validateFault(chat)
    else if dryRun then None
    else if ValidFacts(messages, deps) == [] then deps.markFault(chat)
    else deps.enqueueFault(chat)
  }

  /** How the batch of a chat ends; `Short` when the accounting of the queue does not add up. */
  datatype End = Marked | DryRun | Short | ThrewBeforeQueue(err: Thrown) | ThrewAfterQueue(err: Thrown)

  function EndOf(queue: seq<Fact>, chat: string, messages: seq<Message>, deps: Deps, dryRun: bool): End {
    var early, valid := Early(chat, messages, deps, dryRun), ValidFacts(messages, deps);
    if early.Some? then ThrewBeforeQueue(early.value)
    else if dryRun then DryRun
    else if valid == [] then Marked
    else if !AccountingOk(deps.enqueue(queue, valid).result, |valid|) then Short
    else if deps.markFault(chat).Some? then ThrewAfterQueue(deps.markFault(chat).value)
    else Marked
  }

  /** The batch got as far as the queue. */
  predicate Reached(end: End, valid: seq<Fact>) {
    end.Short? || end.ThrewAfterQueue? || (end.Marked? && valid != [])
  }

  function QueueAfter(queue: seq<Fact>, messages: seq<Message>, deps: Deps): seq<Fact> {
    if ValidFacts(messages, deps) == [] then queue else deps.enqueue(queue, ValidFacts(messages, deps)).queue
  }

  /** What a batch leaves behind: its facts in the queue when it got that far, and its marks when nothing threw and
      the accounting adds up. */
  function AfterBatch(s: Store, chat: string, messages: seq<Message>, deps: Deps, dryRun: bool): Store {
    match EndOf(s.queue, chat, messages, deps, dryRun)
    case Marked => s.(processed := s.processed + Pks(messages), queue := QueueAfter(s.queue, messages, deps))
    case ThrewAfterQueue(_) => s.(queue := QueueAfter(s.queue, messages, deps))
    case Short => s.(queue := QueueAfter(s.queue, messages, deps))
    case _ => s
  }

  function StageOf(c: ErrorClass, strict: bool): Option<Stage> {
    if !strict || c.OtherError? then None else Some(c.stage)
  }

  /** The report agrees with the end of the batch. */
  predicate Reports(r: BatchResult, s: Store, chat: string, messages: seq<Message>, deps: Deps, dryRun: bool,
                    strict: bool) {
    var end := EndOf(s.queue, chat, messages, deps, dryRun);
    var valid := ValidFacts(messages, deps);
    && r.chat == chat && r.messagesInBatch == |messages| && r.marked == end.Marked?
    && r.error == (if end.ThrewBeforeQueue? || end.ThrewAfterQueue? then Some(end.err.text) else None)
    && r.strictFailure ==
       (if end.ThrewBeforeQueue? || end.ThrewAfterQueue? then StageOf(end.err.class_, strict) else None)
    && r.enqueue == (if Reached(end, valid) then Some(deps.enqueue(s.queue, valid).result) else None)
    && r.factsExtracted == (if deps.extractFault(chat).Some? then 0 else |deps.extract(messages)|)
    && r.factsValidated == (if deps.extractFault(chat).Some? || deps.validateFault(chat).Some? then 0 else |valid|)
  }

  class EnrichmentDb {
    var messages: seq<Message>
    var processed: set<int>
    var queue: seq<Fact>

    constructor (s: Store)
      ensures State() == s
    {
      messages, processed, queue := s.messages, s.processed, s.queue;
    }

    function State(): Store
      reads this
    {
      Store(messages, processed, queue)
    }

    /** `processBatch`: the first value thrown ends the batch, and is caught. */
    method ProcessBatch(chat: string, batch: seq<Message>, deps: Deps, dryRun: bool, strict: bool)
      returns (r: BatchResult)
      modifies this
      ensures State() == AfterBatch(old(State()), chat, batch, deps, dryRun)
      ensures Reports(r, old(State()), chat, batch, deps, dryRun, strict)
    {
      r := BatchResult(chat, |batch|, 0, 0, None, false, None, None);
      var fault := deps.extractFault(chat);
      if fault.Some? { r := Caught(r, fault.value, strict); return; }
      var facts := deps.extract(batch);
      r := r.(factsExtracted := |facts|);
      if facts == [] {
        if !dryRun {
          fault := deps.markFault(chat);
          if fault.Some? { r := Caught(r, fault.value, strict); return; }
          processed := processed + Pks(batch);
        }
        r := r.(marked := !dryRun);
        return;
      }
      fault := deps.validateFault(chat);
      if fault.Some? { r := Caught(r, fault.value, strict); return; }
      var valid := deps.validate(facts, batch);
      r := r.(factsValidated := |valid|);
      if valid == [] {
        if !dryRun {
          fault := deps.markFault(chat);
          if fault.Some? { r := Caught(r, fault.value, strict); return; }
          processed := processed + Pks(batch);
        }
        r := r.(marked := !dryRun);
        return;
      }
      if dryRun { return; }
      fault := deps.enqueueFault(chat);
      if fault.Some? { r := Caught(r, fault.value, strict); return; }
      var enqueued := deps.enqueue(queue, valid);
      queue := enqueued.queue;
      r := r.(enqueue := Some(enqueued.result));
      if AccountingOk(enqueued.result, |valid|) {
        fault := deps.markFault(chat);
        if fault.Some? { r := Caught(r, fault.value, strict); return; }
        processed := processed + Pks(batch);
        r := r.(marked := true);
      }
    }

    /** The loop body of `runBackfill`: one batch, run and counted. */
    method RunBatch(summary: Summary, chat: string, batch: seq<Message>, deps: Deps, dryRun: bool, strict: bool,
                    ghost s: Store, ghost fetched: seq<Message>, ghost chats: seq<string>)
      returns (after: Summary)
      requires Ran(summary, State(), s, fetched, chats, deps, dryRun, strict) && batch == OfChat(fetched, chat)
      modifies this
      ensures Ran(after, State(), s, fetched, chats + [chat], deps, dryRun, strict)
    {
      var r := ProcessBatch(chat, batch, deps, dryRun, strict);
      ReportOneMore(summary.perChat, r, s, fetched, chats, chat, deps, dryRun, strict);
      after := CountBatch(summary, r, dryRun);
    }

    /** `runBackfill`. */
    method RunBackfill(limit: nat, deps: Deps, dryRun: bool, strict: bool) returns (summary: Summary)
      modifies this
      ensures var fetched := Fetched(old(State()), limit);
        Ran(summary, State(), old(State()), fetched, Chats(fetched), deps, dryRun, strict)
    {
      var fetched := Fetched(State(), limit);
      summary := Summary(0, 0, 0, 0, 0, 0, [], []);
      var order, byChat := GroupByChatJid(fetched);
      ghost var before := State();
      for i := 0 to |order|
        invariant Ran(summary, State(), before, fetched, order[..i], deps, dryRun, strict)
      {
        assert order[..i + 1] == order[..i] + [order[i]];
        summary := RunBatch(summary, order[i], byChat[order[i]], deps, dryRun, strict, before, fetched, order[..i]);
      }
      assert order[..|order|] == order;
    }
  }

  /** The catch of `processBatch`. */
  function Caught(r: BatchResult, err: Thrown, strict: bool): BatchResult {
    r.(strictFailure := StageOf(err.class_, strict), error := Some(err.text))
  }

  // The run.

  datatype Summary = Summary(
    messagesProcessed: nat, factsExtracted: nat, factsValidated: nat, factsQueued: nat,
    batchesOk: nat, batchesFailed: nat, perChat: seq<BatchResult>, failedBatches: seq<(string, Stage)>)

  /** The incoming messages that are not marked, in the order they are fetched. */
  function Pending(messages: seq<Message>, processed: set<int>): seq<Message> {
    if messages == [] then []
    else
      var n := |messages| - 1;
      Pending(messages[..n], processed)
      + if messages[n].pk !in processed && !messages[n].fromMe then [messages[n]] else []
  }

  /** `getUnprocessedMessages`. */
  function Fetched(s: Store, limit: nat): seq<Message> {
    var pending := Pending(s.messages, s.processed);
    if |pending| <= limit then pending else pending[..limit]
  }

  function AfterBatches(s: Store, fetched: seq<Message>, chats: seq<string>, deps: Deps, dryRun: bool): Store {
    if chats == [] then s
    else
      var n := |chats| - 1;
      AfterBatch(AfterBatches(s, fetched, chats[..n], deps, dryRun), chats[n], OfChat(fetched, chats[n]), deps, dryRun)
  }

  /** How `runBackfill` counts a batch. An error of empty text is no error to it. */
  predicate CountsFailed(r: BatchResult, dryRun: bool) {
    || (r.error.Some? && r.error.value != "")
    || (r.enqueue.Some? && !r.marked && !dryRun)
  }

  function OkOnly(rs: seq<BatchResult>, dryRun: bool): seq<BatchResult> {
    if rs == [] then []
    else OkOnly(rs[..|rs| - 1], dryRun) + if CountsFailed(rs[|rs| - 1], dryRun) then [] else [rs[|rs| - 1]]
  }

  function MarkedTotal(rs: seq<BatchResult>): nat {
    if rs == [] then 0
    else MarkedTotal(rs[..|rs| - 1]) + if rs[|rs| - 1].marked then rs[|rs| - 1].messagesInBatch else 0
  }

  /** Every batch is reported, in the order of the chats. */
  predicate AllReport(rs: seq<BatchResult>, s: Store, fetched: seq<Message>, chats: seq<string>, deps: Deps,
                      dryRun: bool, strict: bool) {
    if rs == [] || chats == [] then rs == [] && chats == []
    else
      var n, m := |rs| - 1, |chats| - 1;
      && AllReport(rs[..n], s, fetched, chats[..m], deps, dryRun, strict)
      && Reports(rs[n], AfterBatches(s, fetched, chats[..m], deps, dryRun), chats[m], OfChat(fetched, chats[m]), deps,
        dryRun, strict)
  }

  /** After the batches of `chats` the store is `now`, and the summary reports and counts them. */
  predicate Ran(summary: Summary, now: Store, s: Store, fetched: seq<Message>, chats: seq<string>, deps: Deps,
                dryRun: bool, strict: bool) {
    && now == AfterBatches(s, fetched, chats, deps, dryRun)
    && AllReport(summary.perChat, s, fetched, chats, deps, dryRun, strict)
    && Counted(summary, dryRun)
  }

  lemma ReportOneMore(rs: seq<BatchResult>, r: BatchResult, s: Store, fetched: seq<Message>, chats: seq<string>,
                      chat: string, deps: Deps, dryRun: bool, strict: bool)
    requires AllReport(rs, s, fetched, chats, deps, dryRun, strict)
    requires Reports(r, AfterBatches(s, fetched, chats, deps, dryRun), chat, OfChat(fetched, chat), deps, dryRun,
      strict)
    ensures AllReport(rs + [r], s, fetched, chats + [chat], deps, dryRun, strict)
    ensures AfterBatches(s, fetched, chats + [chat], deps, dryRun)
      == AfterBatch(AfterBatches(s, fetched, chats, deps, dryRun), chat, OfChat(fetched, chat), deps, dryRun)
  {
    assert (rs + [r])[..|rs|] == rs && (chats + [chat])[..|chats|] == chats;
  }

  function InsertedTotal(rs: seq<BatchResult>): nat {
    if rs == [] then 0
    else
      var r := rs[|rs| - 1];
      InsertedTotal(rs[..|rs| - 1]) + if r.enqueue.Some? then r.enqueue.value.inserted else 0
  }

  function ExtractedTotal(rs: seq<BatchResult>): nat {
    if rs == [] then 0 else ExtractedTotal(rs[..|rs| - 1]) + rs[|rs| - 1].factsExtracted
  }

  function ValidatedTotal(rs: seq<BatchResult>): nat {
    if rs == [] then 0 else ValidatedTotal(rs[..|rs| - 1]) + rs[|rs| - 1].factsValidated
  }

  /** The batches that failed closed, with the stage of the error. */
  function StrictFailures(rs: seq<BatchResult>): seq<(string, Stage)> {
    if rs == [] then []
    else
      var r := rs[|rs| - 1];
      StrictFailures(rs[..|rs| - 1]) + if r.strictFailure.Some? then [(r.chat, r.strictFailure.value)] else []
  }

  /** The counters are those of the reports. */
  predicate Counted(s: Summary, dryRun: bool) {
    && s.batchesOk == |OkOnly(s.perChat, dryRun)| && s.batchesOk + s.batchesFailed == |s.perChat|
    && s.messagesProcessed == MarkedTotal(s.perChat) && s.factsQueued == InsertedTotal(s.perChat)
    && s.factsExtracted == ExtractedTotal(s.perChat) && s.factsValidated == ValidatedTotal(s.perChat)
    && s.failedBatches == StrictFailures(s.perChat)
  }

  function CountBatch(s: Summary, r: BatchResult, dryRun: bool): (after: Summary)
    requires Counted(s, dryRun)
    ensures Counted(after, dryRun) && after.perChat == s.perChat + [r]
  {
    assert (s.perChat + [r])[..|s.perChat|] == s.perChat;
    Summary(
      s.messagesProcessed + (if r.marked then r.messagesInBatch else 0),
      s.factsExtracted + r.factsExtracted,
      s.factsValidated + r.factsValidated,
      s.factsQueued + (if r.enqueue.Some? then r.enqueue.value.inserted else 0),
      s.batchesOk + (if CountsFailed(r, dryRun) then 0 else 1),
      s.batchesFailed + (if CountsFailed(r, dryRun) then 1 else 0),
      s.perChat + [r],
      s.failedBatches + if r.strictFailure.Some? then [(r.chat, r.strictFailure.value)] else [])
  }
}
