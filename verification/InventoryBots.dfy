/** The assignment history of every bot in the inventory is one unbroken chain, after every run of calls. */
module InventoryBots {
  import opened Wrappers
  import opened InventoryRows
  import opened InventoryTables

  /** The assignments of a bot, oldest first. */
  function History(order: seq<AssignmentId>, bots: Bots, slug: string): seq<AssignmentId> {
    if order == [] then []
    else
      var id := order[|order| - 1];
      History(order[..|order| - 1], bots, slug) + if id in bots && bots[id].slug == slug then [id] else []
  }

  /** Each assignment ends when the next one starts, and only the last is active. */
  ghost predicate Chain(bots: Bots, h: seq<AssignmentId>) {
    forall i | 0 <= i < |h| ::
      && h[i] in bots
      && (bots[h[i]].active <==> i == |h| - 1)
      && bots[h[i]].endAt == (if i == |h| - 1 then None
                              else if h[i + 1] in bots then Some(bots[h[i + 1]].startAt) else None)
  }

  ghost predicate ChainOf(db: Db, slug: string) {
    Chain(db.bots, History(db.order, db.bots, slug))
  }

  ghost predicate Listed(db: Db) {
    && (forall id :: id in db.bots <==> id in db.order)
    && (forall i, j | 0 <= i < j < |db.order| :: db.order[i] != db.order[j])
  }

  ghost predicate BotsOk(db: Db) {
    Listed(db) && ActiveUnique(db.bots) && forall slug :: ChainOf(db, slug)
  }

  /** No assignment ends before it starts, or starts after `clock`. */
  ghost predicate Timely(bots: Bots, clock: Instant) {
    forall id <- bots ::
      bots[id].startAt <= clock && (bots[id].endAt.Some? ==> bots[id].startAt <= bots[id].endAt.value <= clock)
  }

  // Reading the history.

  lemma {:induction false} HistoryHolds(order: seq<AssignmentId>, bots: Bots, slug: string, id: AssignmentId)
    ensures id in History(order, bots, slug) <==> id in order && id in bots && bots[id].slug == slug
  {
    if order != [] {
      HistoryHolds(order[..|order| - 1], bots, slug, id);
      assert order == order[..|order| - 1] + [order[|order| - 1]];
    }
  }

  lemma {:induction false} HistoryAgrees(order: seq<AssignmentId>, bots: Bots, bots': Bots, slug: string)
    requires forall id <- order :: (id in bots <==> id in bots') && (id in bots ==> bots'[id].slug == bots[id].slug)
    ensures History(order, bots', slug) == History(order, bots, slug)
  {
    if order != [] { HistoryAgrees(order[..|order| - 1], bots, bots', slug); }
  }

  /** The active row of a bot is the last of its history, and there is one as soon as there is a history. */
  lemma ActiveIsLast(db: Db, slug: string)
    requires BotsOk(db)
    ensures var h := History(db.order, db.bots, slug);
      ActiveRows(db.bots, slug) == if h == [] then {} else {h[|h| - 1]}
  {
    var h := History(db.order, db.bots, slug);
    assert ChainOf(db, slug);
    forall id ensures id in ActiveRows(db.bots, slug) <==> h != [] && id == h[|h| - 1] {
      HistoryHolds(db.order, db.bots, slug, id);
    }
  }

  // Assigning.

  /** What `ClosePrevious` does to the rows: the active one, if any, ends now. */
  lemma CloseEffect(db: Db, slug: string, now: Instant)
    requires BotsOk(db)
    ensures var db1 := ClosePrevious(db, slug, now); var h := History(db.order, db.bots, slug);
      && db1.order == db.order && db1.devices == db.devices && db1.sims == db.sims
      && (h == [] ==> db1.bots == db.bots)
      && (h != [] ==> h[|h| - 1] in db.bots && db1.bots == db.bots[h[|h| - 1] := Closed(db.bots[h[|h| - 1]], now)])
  {
    ActiveIsLast(db, slug);
    var h := History(db.order, db.bots, slug);
    if h != [] {
      HistoryHolds(db.order, db.bots, slug, h[|h| - 1]);
      var id :| id in ActiveRows(db.bots, slug) && ClosePrevious(db, slug, now) == WithClosed(db, id, now);
      assert id in {h[|h| - 1]};
    }
  }

  /** The rows of `bots'` are those of `bots`, except that the last of `h` is closed and `newId` is new and open. */
  ghost predicate Succeeds(bots: Bots, bots': Bots, h: seq<AssignmentId>, newId: AssignmentId, now: Instant) {
    && newId !in bots && newId in bots' && bots'[newId].active && bots'[newId].endAt == None
      && bots'[newId].startAt == now
    && bots'.Keys == bots.Keys + {newId}
    && (forall id <- bots :: bots'[id] == if h != [] && id == h[|h| - 1] then Closed(bots[id], now) else bots[id])
  }

  lemma ChainExtends(bots: Bots, bots': Bots, h: seq<AssignmentId>, newId: AssignmentId, now: Instant)
    requires Chain(bots, h) && Succeeds(bots, bots', h, newId, now)
    requires forall i, j | 0 <= i < j < |h| :: h[i] != h[j]
    ensures Chain(bots', h + [newId])
  {
    var h' := h + [newId];
    forall i | 0 <= i < |h'|
      ensures h'[i] in bots' && (bots'[h'[i]].active <==> i == |h'| - 1)
      ensures bots'[h'[i]].endAt == (if i == |h'| - 1 then None
                                     else if h'[i + 1] in bots' then Some(bots'[h'[i + 1]].startAt) else None)
    {
      if i < |h| - 1 { assert h[i + 1] in bots; }
    }
  }

  lemma {:induction false} HistoryDistinct(order: seq<AssignmentId>, bots: Bots, slug: string)
    requires forall i, j | 0 <= i < j < |order| :: order[i] != order[j]
    ensures var h := History(order, bots, slug); forall i, j | 0 <= i < j < |h| :: h[i] != h[j]
  {
    if order != [] {
      var n := |order| - 1;
      HistoryDistinct(order[..n], bots, slug);
      HistoryHolds(order[..n], bots, slug, order[n]);
    }
  }

  lemma ChainSame(bots: Bots, bots': Bots, h: seq<AssignmentId>)
    requires Chain(bots, h) && forall id <- h :: id in bots' && id in bots && bots'[id] == bots[id]
    ensures Chain(bots', h)
  {
    assert forall i | 0 <= i < |h| :: h[i] in h;
  }

  /** The chain of another bot is not touched. */
  lemma ChainKept(order: seq<AssignmentId>, bots: Bots, bots': Bots, slug: string, other: string, newId: AssignmentId,
                  now: Instant)
    requires other != slug && Chain(bots, History(order, bots, other))
    requires Succeeds(bots, bots', History(order, bots, slug), newId, now)
    ensures Chain(bots', History(order, bots, other))
  {
    var h, o := History(order, bots, slug), History(order, bots, other);
    forall id <- o ensures id in bots && id in bots' && bots'[id] == bots[id] {
      HistoryHolds(order, bots, other, id);
      HistoryHolds(order, bots, slug, id);
    }
    ChainSame(bots, bots', o);
  }

  lemma HistoryAfter(order: seq<AssignmentId>, bots: Bots, bots': Bots, slug: string, other: string,
                     newId: AssignmentId, now: Instant)
    requires forall id <- order :: id in bots
    requires Succeeds(bots, bots', History(order, bots, slug), newId, now) && bots'[newId].slug == slug
    ensures History(order + [newId], bots', other)
      == History(order, bots, other) + if other == slug then [newId] else []
  {
    assert (order + [newId])[..|order|] == order;
    HistoryAgrees(order, bots, bots', other);
  }

  lemma SucceedsAfterAssign(db: Db, b: BotArgs, newId: AssignmentId, bot: Bot, now: Instant)
    requires BotsOk(db) && newId !in db.bots
    requires bot.slug == b.slug && bot.startAt == now && bot.endAt == None && bot.active
    ensures var db' := WithBot(ClosePrevious(db, b.slug, now), newId, bot, b.reason);
      && db'.order == db.order + [newId] && db'.devices == db.devices && db'.sims == db.sims
      && db'.bots[newId] == bot
      && Succeeds(db.bots, db'.bots, History(db.order, db.bots, b.slug), newId, now)
  {
    CloseEffect(db, b.slug, now);
  }

  /** The new row breaks no unique index: its own bot has no other active row left, and its line is active
      nowhere else. */
  lemma NewRowIsUnique(bots: Bots, bots': Bots, h: seq<AssignmentId>, slug: string, newId: AssignmentId, now: Instant)
    requires ActiveUnique(bots) && ActiveRows(bots, slug) == if h == [] then {} else {h[|h| - 1]}
    requires Succeeds(bots, bots', h, newId, now)
    requires bots'[newId].slug == slug && !LineBusy(bots, bots'[newId].phone.hash, slug)
    ensures ActiveUnique(bots')
  {
    forall id <- bots | bots'[id].active
      ensures bots[id].active && bots'[id] == bots[id] && bots[id].slug != slug
      ensures bots'[newId].phone.hash.Some? ==> bots[id].phone.hash != bots'[newId].phone.hash
    {
      assert id !in ActiveRows(bots, slug);
    }
  }

  lemma OneChainKept(db: Db, bots': Bots, slug: string, other: string, newId: AssignmentId, now: Instant)
    requires BotsOk(db) && Succeeds(db.bots, bots', History(db.order, db.bots, slug), newId, now)
    requires bots'[newId].slug == slug
    ensures Chain(bots', History(db.order + [newId], bots', other))
  {
    assert ChainOf(db, other);
    HistoryAfter(db.order, db.bots, bots', slug, other, newId, now);
    if other == slug {
      HistoryDistinct(db.order, db.bots, slug);
      ChainExtends(db.bots, bots', History(db.order, db.bots, slug), newId, now);
    } else {
      ChainKept(db.order, db.bots, bots', slug, other, newId, now);
      assert History(db.order, db.bots, other) + [] == History(db.order, db.bots, other);
    }
  }

  /** An assignment that passes the checks never meets a schema constraint, unless its fresh id is taken. */
  lemma AssignIsRefusedOnlyByChecks(db: Db, b: BotArgs, newId: AssignmentId, now: Instant)
    requires BotsOk(db) && newId !in db.bots
    ensures AssignBot(db, b, newId, now) != Failure(Integrity)
  {
    var device, sim := ResolveDevice(db, b.device), ResolveSim(db, b.sim);
    if !NoteMissing(b.trustNote) && device.Success? && sim.Success? && !LineBusy(db.bots, HmacValue(b.phone), b.slug) {
      var bot := NewBot(b, device.value, sim.value, now);
      SucceedsAfterAssign(db, b, newId, bot, now);
      ActiveIsLast(db, b.slug);
      NewRowIsUnique(db.bots, WithBot(ClosePrevious(db, b.slug, now), newId, bot, b.reason).bots,
                     History(db.order, db.bots, b.slug), b.slug, newId, now);
    }
  }

  /** What an accepted assignment does: the history of its bot grows by the new row, whose predecessor is closed
      at the same instant; no other row of any bot changes. */
  lemma AssignExtendsHistory(db: Db, b: BotArgs, newId: AssignmentId, now: Instant)
    requires BotsOk(db) && AssignBot(db, b, newId, now).Success?
    ensures var db' := AssignBot(db, b, newId, now).value; var h := History(db.order, db.bots, b.slug);
      && db'.order == db.order + [newId] && ActiveUnique(db'.bots)
      && Succeeds(db.bots, db'.bots, h, newId, now)
      && db'.bots[newId].slug == b.slug && db'.bots[newId].phone == SensitiveOf(b.phone)
      && History(db'.order, db'.bots, b.slug) == h + [newId]
      && forall other | other != b.slug :: History(db'.order, db'.bots, other) == History(db.order, db.bots, other)
  {
    var db' := AssignBot(db, b, newId, now).value;
    var bot := NewBot(b, ResolveDevice(db, b.device).value, ResolveSim(db, b.sim).value, now);
    SucceedsAfterAssign(db, b, newId, bot, now);
    forall other ensures History(db'.order, db'.bots, other)
                      == History(db.order, db.bots, other) + if other == b.slug then [newId] else []
    {
      HistoryAfter(db.order, db.bots, db'.bots, b.slug, other, newId, now);
    }
  }

  lemma ExtendedIsOk(db: Db, db': Db, slug: string, newId: AssignmentId, now: Instant)
    requires BotsOk(db) && Succeeds(db.bots, db'.bots, History(db.order, db.bots, slug), newId, now)
    requires db'.order == db.order + [newId] && db'.bots[newId].slug == slug && ActiveUnique(db'.bots)
    ensures BotsOk(db')
  {
    ListedAfter(db, db', newId);
    forall other ensures ChainOf(db', other) { OneChainKept(db, db'.bots, slug, other, newId, now); }
  }

  lemma ExtendedIsTimely(bots: Bots, bots': Bots, h: seq<AssignmentId>, newId: AssignmentId, now: Instant)
    requires Succeeds(bots, bots', h, newId, now) && Timely(bots, now)
    ensures Timely(bots', now)
  {
  }

  lemma AssignKeepsBots(db: Db, b: BotArgs, newId: AssignmentId, now: Instant)
    requires BotsOk(db) && AssignBot(db, b, newId, now).Success?
    ensures BotsOk(AssignBot(db, b, newId, now).value)
    ensures Timely(db.bots, now) ==> Timely(AssignBot(db, b, newId, now).value.bots, now)
  {
    var db', h := AssignBot(db, b, newId, now).value, History(db.order, db.bots, b.slug);
    AssignExtendsHistory(db, b, newId, now);
    ExtendedIsOk(db, db', b.slug, newId, now);
    if Timely(db.bots, now) { ExtendedIsTimely(db.bots, db'.bots, h, newId, now); }
  }

  lemma ListedAfter(db: Db, db': Db, newId: AssignmentId)
    requires Listed(db) && newId !in db.bots && db'.order == db.order + [newId]
      && db'.bots.Keys == db.bots.Keys + {newId}
    ensures Listed(db')
  {
    forall id ensures id in db'.bots <==> id in db'.order {
      assert id in db'.bots.Keys <==> id in db.bots.Keys || id == newId;
    }
  }

  /** Calls about devices and SIMs, and refused calls, leave the assignments alone. */
  lemma OtherCallsKeepBots(db: Db, c: Call)
    requires c.BotCall? ==> Outcome(db, c).Failure?
    ensures Execute(db, c).bots == db.bots && Execute(db, c).order == db.order
  {
  }

  lemma SameBotsOk(db: Db, db': Db)
    requires BotsOk(db) && db'.bots == db.bots && db'.order == db.order
    ensures BotsOk(db')
  {
    assert forall slug :: ChainOf(db, slug) ==> ChainOf(db', slug);
  }

  lemma ExecuteKeepsBots(db: Db, c: Call)
    requires BotsOk(db)
    ensures BotsOk(Execute(db, c))
    ensures Timely(db.bots, c.now) ==> Timely(Execute(db, c).bots, c.now)
  {
    var db' := Execute(db, c);
    if c.BotCall? && Outcome(db, c).Success? {
      AssignKeepsBots(db, c.bot, c.newBot, c.now);
    } else {
      OtherCallsKeepBots(db, c);
      SameBotsOk(db, db');
    }
  }

  lemma {:induction false} RunKeepsBots(calls: seq<Call>)
    ensures BotsOk(Run(calls))
  {
    if calls == [] {
    } else {
      RunKeepsBots(calls[..|calls| - 1]);
      ExecuteKeepsBots(Run(calls[..|calls| - 1]), calls[|calls| - 1]);
    }
  }

  ghost predicate MonotoneClock(calls: seq<Call>) {
    forall i, j | 0 <= i < j < |calls| :: calls[i].now <= calls[j].now
  }

  lemma {:induction false} RunIsTimely(calls: seq<Call>)
    requires MonotoneClock(calls)
    ensures Run(calls).bots == map[] || (calls != [] && Timely(Run(calls).bots, calls[|calls| - 1].now))
  {
    if calls != [] {
      var n := |calls| - 1;
      RunIsTimely(calls[..n]);
      RunKeepsBots(calls[..n]);
      ExecuteKeepsBots(Run(calls[..n]), calls[n]);
      assert Timely(Run(calls[..n]).bots, calls[n].now);
    }
  }

  /** Bot history is one unbroken chain: after any calls with a monotone clock, the assignments of a bot are
      contiguous intervals, none ending before it starts, and only the last is active. */
  lemma HistoryIsOneChain(calls: seq<Call>, slug: string, i: nat)
    requires MonotoneClock(calls)
    requires i < |History(Run(calls).order, Run(calls).bots, slug)|
    ensures var db := Run(calls); var h := History(db.order, db.bots, slug);
      && h[i] in db.bots && db.bots[h[i]].slug == slug
      && (db.bots[h[i]].active <==> i == |h| - 1)
      && (i == |h| - 1 ==> db.bots[h[i]].endAt == None)
      && (i < |h| - 1 ==> (
            && h[i + 1] in db.bots && db.bots[h[i]].startAt <= db.bots[h[i + 1]].startAt
            && db.bots[h[i]].endAt == Some(db.bots[h[i + 1]].startAt)))
  {
    var db := Run(calls);
    var h := History(db.order, db.bots, slug);
    RunKeepsBots(calls);
    RunIsTimely(calls);
    assert ChainOf(db, slug);
    HistoryHolds(db.order, db.bots, slug, h[i]);
    assert Timely(db.bots, calls[|calls| - 1].now);
  }

  /** No phone is active on two bots, and `_duplicate_findings` is empty. */
  lemma NoDuplicates(calls: seq<Call>)
    ensures DuplicateFindings(Run(calls).bots) == {}
    ensures var bots := Run(calls).bots;
      forall i <- bots, j <- bots | bots[i].active && bots[j].active && bots[i].phone.hash.Some?
        && bots[i].phone.hash == bots[j].phone.hash ::
        bots[i].slug == bots[j].slug
  {
    RunKeepsBots(calls);
    NoDuplicateFindings(Run(calls));
  }

  lemma NoDuplicateFindings(db: Db)
    requires BotsOk(db)
    ensures DuplicateFindings(db.bots) == {}
  {
    var bots := db.bots;
    forall i <- bots | bots[i].active ensures |ActiveRows(bots, bots[i].slug)| <= 1 {
      ActiveIsLast(db, bots[i].slug);
    }
    forall i <- bots | bots[i].active && bots[i].phone.hash.Some?
      ensures |BotsOnLine(bots, bots[i].phone.hash.value)| <= 1 {
      assert BotsOnLine(bots, bots[i].phone.hash.value) == {bots[i].slug};
    }
  }

  /** `verify_bot` passes exactly when the bot was ever assigned, and then it has an active row. */
  lemma VerifyPassesIff(calls: seq<Call>, slug: string)
    ensures Passes(Run(calls).bots, slug)
      <==> exists id <- Run(calls).bots :: Run(calls).bots[id].active && Run(calls).bots[id].slug == slug
    ensures Passes(Run(calls).bots, slug)
      <==> exists id <- Run(calls).bots :: Run(calls).bots[id].slug == slug
  {
    var db := Run(calls);
    RunKeepsBots(calls);
    NoDuplicateFindings(db);
    ActiveIsLast(db, slug);
    var h := History(db.order, db.bots, slug);
    if id :| id in db.bots && db.bots[id].slug == slug {
      HistoryHolds(db.order, db.bots, slug, id);
      HistoryHolds(db.order, db.bots, slug, h[|h| - 1]);
      assert h[|h| - 1] in ActiveRows(db.bots, slug);
    } else {
      assert forall id :: id !in ActiveRows(db.bots, slug);
    }
  }
}
