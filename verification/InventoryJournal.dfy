/** The audit journal of the inventory refines its tables: replaying the after-images of the events gives the
    non-sensitive part of every row, after every run of calls. */
module InventoryJournal {
  import opened Wrappers
  import opened InventoryRows
  import opened InventoryTables

  function Replay(events: seq<Event>): map<Entity, Image> {
    if events == [] then map[]
    else Replay(events[..|events| - 1])[events[|events| - 1].entity := events[|events| - 1].after]
  }

  function Lookup(images: map<Entity, Image>, e: Entity): Option<Image> {
    if e in images then Some(images[e]) else None
  }

  /** Every before-image is what the events so far make of the entity. */
  ghost predicate Chained(events: seq<Event>) {
    forall i | 0 <= i < |events| :: events[i].before == Lookup(Replay(events[..i]), events[i].entity)
  }

  ghost predicate Journaled(db: Db) {
    Chained(db.events) && forall e: Entity :: Lookup(Replay(db.events), e) == db.ImageOf(e)
  }

  /** One event for the one entity that changes keeps the journal in step with the tables. */
  lemma RecordKeepsJournal(db: Db, db': Db, event: Event)
    requires Journaled(db) && db'.events == db.events + [event]
    requires event.before == db.ImageOf(event.entity) && Some(event.after) == db'.ImageOf(event.entity)
    requires forall e: Entity | e != event.entity :: db'.ImageOf(e) == db.ImageOf(e)
    ensures Journaled(db')
  {
    var n := |db.events|;
    assert db'.events[..n] == db.events;
    forall i | 0 <= i <= n ensures db'.events[i].before == Lookup(Replay(db'.events[..i]), db'.events[i].entity) {
      if i < n { assert db'.events[..i] == db.events[..i]; }
    }
  }

  lemma DeviceIsJournaled(db: Db, a: DeviceArgs, target: DeviceId, now: Instant)
    requires Journaled(db)
    ensures Journaled(WithDevice(db, a, target, now))
  {
    var db' := WithDevice(db, a, target, now);
    RecordKeepsJournal(db, db', db'.events[|db.events|]);
  }

  lemma SimIsJournaled(db: Db, a: SimArgs, target: SimId, now: Instant)
    requires Journaled(db)
    ensures Journaled(WithSim(db, a, target, now))
  {
    var db' := WithSim(db, a, target, now);
    RecordKeepsJournal(db, db', db'.events[|db.events|]);
  }

  lemma CloseIsJournaled(db: Db, id: AssignmentId, now: Instant)
    requires Journaled(db) && id in db.bots
    ensures Journaled(WithClosed(db, id, now))
  {
    var db' := WithClosed(db, id, now);
    RecordKeepsJournal(db, db', db'.events[|db.events|]);
  }

  lemma BotIsJournaled(db: Db, id: AssignmentId, bot: Bot, reason: string)
    requires Journaled(db) && id !in db.bots
    ensures Journaled(WithBot(db, id, bot, reason))
  {
    var db' := WithBot(db, id, bot, reason);
    RecordKeepsJournal(db, db', db'.events[|db.events|]);
  }

  lemma AssignIsJournaled(db: Db, b: BotArgs, newId: AssignmentId, now: Instant)
    requires Journaled(db) && AssignBot(db, b, newId, now).Success?
    ensures Journaled(AssignBot(db, b, newId, now).value)
  {
    var db1 := ClosePrevious(db, b.slug, now);
    if ActiveRows(db.bots, b.slug) != {} {
      var id :| id in ActiveRows(db.bots, b.slug) && db1 == WithClosed(db, id, now);
      CloseIsJournaled(db, id, now);
    }
    BotIsJournaled(db1, newId, NewBot(b, ResolveDevice(db, b.device).value, ResolveSim(db, b.sim).value, now),
      b.reason);
  }

  lemma UpsertIsJournaled(db: Db, a: DeviceArgs, newId: DeviceId, now: Instant)
    requires Journaled(db)
    ensures UpsertDevice(db, a, newId, now).Success? ==> Journaled(UpsertDevice(db, a, newId, now).value)
  {
    DeviceIsJournaled(db, a, TheOne(Candidates(db.devices, db.ids, a), newId), now);
  }

  lemma SimUpsertIsJournaled(db: Db, a: SimArgs, newId: SimId, now: Instant)
    requires Journaled(db)
    ensures UpsertSim(db, a, newId, now).Success? ==> Journaled(UpsertSim(db, a, newId, now).value)
  {
    SimIsJournaled(db, a, TheOne(SimCandidates(db.sims, a), newId), now);
  }

  lemma ExecuteIsJournaled(db: Db, c: Call)
    requires Journaled(db)
    ensures Journaled(Execute(db, c))
  {
    match c
    case DeviceCall(a, newId, now) => UpsertIsJournaled(db, a, newId, now);
    case SimCall(a, newId, now) => SimUpsertIsJournaled(db, a, newId, now);
    case BotCall(b, newId, now) => if Outcome(db, c).Success? { AssignIsJournaled(db, b, newId, now); }
  }

  lemma {:induction false} RunIsJournaled(calls: seq<Call>)
    ensures Journaled(Run(calls))
  {
    if calls != [] {
      RunIsJournaled(calls[..|calls| - 1]);
      ExecuteIsJournaled(Run(calls[..|calls| - 1]), calls[|calls| - 1]);
    }
  }

  /** The journal refines the tables: after any calls, accepted or refused, the replayed after-images are exactly
      the non-sensitive part of every device, SIM and bot assignment, and of nothing else. */
  lemma JournalRefinesTables(calls: seq<Call>, e: Entity)
    ensures Lookup(Replay(Run(calls).events), e) == Run(calls).ImageOf(e)
  {
    RunIsJournaled(calls);
  }

  /** The events of an entity form a chain: each before-image is the after-image of the event before it, and
      the first has none. */
  lemma BeforeIsPreviousAfter(calls: seq<Call>, i: nat, j: nat)
    requires i <= j < |Run(calls).events|
    requires var events := Run(calls).events;
      forall k | i < k < j :: events[k].entity != events[j].entity
    ensures var events := Run(calls).events;
      && (i < j && events[i].entity == events[j].entity ==> events[j].before == Some(events[i].after))
      && (i == 0 && (i < j ==> events[i].entity != events[j].entity) ==> events[j].before == None)
  {
    var events := Run(calls).events;
    RunIsJournaled(calls);
    if i < j && events[i].entity == events[j].entity { PreviousAfter(events, i, j); }
    else if i == 0 { FirstHasNone(events, j); }
  }

  lemma PreviousAfter(events: seq<Event>, i: nat, j: nat)
    requires i < j < |events| && Chained(events) && events[i].entity == events[j].entity
    requires forall k | i < k < j :: events[k].entity != events[j].entity
    ensures events[j].before == Some(events[i].after)
  {
    SkipOthers(events, i + 1, j, events[j].entity);
    assert events[..i + 1][..i] == events[..i];
  }

  lemma FirstHasNone(events: seq<Event>, j: nat)
    requires j < |events| && Chained(events) && forall k | 0 <= k < j :: events[k].entity != events[j].entity
    ensures events[j].before == None
  {
    SkipOthers(events, 0, j, events[j].entity);
  }

  /** Events of other entities do not touch this one. */
  lemma {:induction false} SkipOthers(events: seq<Event>, i: nat, j: nat, e: Entity)
    requires i <= j <= |events| && forall k | i <= k < j :: events[k].entity != e
    ensures Lookup(Replay(events[..j]), e) == Lookup(Replay(events[..i]), e)
  {
    if i < j {
      assert events[..j][..j - 1] == events[..j - 1];
      SkipOthers(events, i, j - 1, e);
    }
  }

  lemma ExecuteGrowsJournal(db: Db, c: Call)
    ensures db.events <= Execute(db, c).events
  {
    if c.BotCall? && Outcome(db, c).Success? {
      assert db.events <= ClosePrevious(db, c.bot.slug, c.now).events;
    }
  }

  /** The journal is append-only: whatever is called later, the events so far stay as they are. */
  lemma {:induction false} JournalOnlyGrows(calls: seq<Call>, i: nat)
    requires i <= |calls|
    ensures Run(calls[..i]).events <= Run(calls).events
  {
    if i == |calls| {
      assert calls[..i] == calls;
    } else {
      var n := |calls| - 1;
      assert calls[..n][..i] == calls[..i];
      JournalOnlyGrows(calls[..n], i);
      ExecuteGrowsJournal(Run(calls[..n]), calls[n]);
    }
  }
}
