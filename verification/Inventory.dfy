/** `AssetInventory` of `phonectl/asset_inventory.py`: its methods change the tables statement by statement inside
    a transaction and roll back on refusal. Each is proved to do to the whole database exactly what
    `InventoryTables` says. */
module Inventory {
  import opened Wrappers
  import opened InventoryRows
  import opened InventoryTables
  import opened InventoryKeys
  import opened InventoryBots
  import opened InventoryJournal

  /** The call turned `before` into `after` as specified and reported what it should. */
  ghost predicate Done<T>(before: Db, c: Call, after: Db, r: Result<T, Refusal>) {
    && after == Execute(before, c)
    && (Outcome(before, c).Success? ==> r.Success?)
    && (Outcome(before, c).Failure? ==> r == Failure(Outcome(before, c).error))
  }

  ghost predicate AllOk(db: Db) {
    KeysOk(db) && BotsOk(db) && Journaled(db)
  }

  lemma ExecuteKeepsAll(db: Db, c: Call)
    requires AllOk(db)
    ensures AllOk(Execute(db, c))
  {
    ExecuteKeepsKeys(db, c);
    ExecuteKeepsBots(db, c);
    ExecuteIsJournaled(db, c);
  }

  /** What `_resolve_existing_device` returns. */
  ghost function Resolution(devices: Devices, table: IdTable, a: DeviceArgs): Result<Option<DeviceId>, Refusal> {
    var c := Candidates(devices, table, a);
    var d := TheOne(c, "");
    if |c| > 1 then Failure(Conflict)
    else if c == {} then Success(None)
    else if d in devices && d in table && Contradicts(devices[d], table[d], a) then Failure(Conflict)
    else Success(Some(d))
  }

  lemma ByResolution(db: Db, a: DeviceArgs, newId: DeviceId, now: Instant)
    requires a.lifecycle in LIFECYCLE_STATUSES && a.confidence in CONFIDENCE_LEVELS
    ensures var found := Resolution(db.devices, db.ids, a);
      && (found.Failure? ==> UpsertDevice(db, a, newId, now) == Failure(found.error))
      && (found.Success? ==>
            && found.value.GetOr(newId) == TheOne(Candidates(db.devices, db.ids, a), newId)
            && (found.value.None? <==> Candidates(db.devices, db.ids, a) == {}))
  {
    var c := Candidates(db.devices, db.ids, a);
    if c != {} && |c| <= 1 { OnlyMember(c, TheOne(c, "")); }
  }

  ghost predicate MatchedUpTo(table: IdTable, a: DeviceArgs, d: DeviceId, n: nat)
    requires n <= |ID_FIELDS|
  {
    n > 0 && (MatchedUpTo(table, a, d, n - 1) || IdMatch(table, a, ID_FIELDS[n - 1], d))
  }

  lemma {:induction false} UpToIff(table: IdTable, a: DeviceArgs, d: DeviceId, n: nat)
    requires n <= |ID_FIELDS|
    ensures MatchedUpTo(table, a, d, n) <==> exists j | 0 <= j < n :: IdMatch(table, a, ID_FIELDS[j], d)
  {
    if n > 0 { UpToIff(table, a, d, n - 1); }
  }

  lemma UpToAll(table: IdTable, a: DeviceArgs, d: DeviceId)
    ensures MatchedUpTo(table, a, d, |ID_FIELDS|) <==> exists f <- ID_FIELDS :: IdMatch(table, a, f, d)
  {
    UpToIff(table, a, d, |ID_FIELDS|);
  }

  lemma UpToIsRow(table: IdTable, a: DeviceArgs, d: DeviceId, n: nat)
    requires n <= |ID_FIELDS| && MatchedUpTo(table, a, d, n)
    ensures d in table
  {
    UpToIff(table, a, d, n);
  }

  /** One query by digest: the row found, if there is one, joins the candidates. */
  method AddRow(table: IdTable, a: DeviceArgs, f: IdField, candidates: set<DeviceId>) returns (r: set<DeviceId>)
    requires HashUnique(table, f)
    ensures forall d :: d in r <==> d in candidates || IdMatch(table, a, f, d)
  {
    r := candidates;
    var digest := HmacValue(a.Given(f));
    if digest.Some? {
      if d :| d in table && table[d].At(f).hash == digest { r := r + {d}; }
    }
  }

  /** The comparison of the resolved device with the arguments, stopping at the first difference. */
  method FindClash(device: Device, row: Identifiers, a: DeviceArgs) returns (clashing: bool)
    ensures clashing <==> Contradicts(device, row, a)
  {
    if SerialClash(a.adbSerial, device.adbSerial) || SerialClash(a.roSerialno, device.roSerialno) { return true; }
    for i := 0 to |ID_FIELDS|
      invariant forall j | 0 <= j < i :: !HashClash(HmacValue(a.Given(ID_FIELDS[j])), row.At(ID_FIELDS[j]).hash)
    {
      if HashClash(HmacValue(a.Given(ID_FIELDS[i])), row.At(ID_FIELDS[i]).hash) { return true; }
    }
    return false;
  }

  method AddSim(sims: Sims, given: Option<string>, f: SimField, found: set<SimId>) returns (r: set<SimId>)
    requires SimHashUnique(sims, f)
    ensures forall s :: s in r <==> s in found || (s in sims && SameHash(given, sims[s].At(f)))
  {
    r := found;
    if HmacValue(given).Some? {
      if s :| s in sims && SameHash(given, sims[s].At(f)) { r := r + {s}; }
    }
  }

  class AssetInventory {
    var devices: Devices
    var ids: IdTable
    var usb: set<(DeviceId, string)>
    var sims: Sims
    var bots: Bots
    var order: seq<AssignmentId>
    var events: seq<Event>

    function State(): Db
      reads this
    {
      Db(devices, ids, usb, sims, bots, order, events)
    }

    /** Every key of the schema holds, every bot has one unbroken history, and the journal replays to the tables. */
    ghost predicate Valid()
      reads this
    {
      AllOk(State())
    }

    constructor ()
      ensures Valid() && State() == EMPTY
    {
      devices, ids, usb, sims, bots, order, events := map[], map[], {}, map[], map[], [], [];
      new;
      assert State() == Run([]);
      RunKeepsKeys([]);
      RunKeepsBots([]);
      RunIsJournaled([]);
    }

    /** The candidates of `_resolve_existing_device`, collected query by query, one row each. */
    method CollectCandidates(a: DeviceArgs) returns (candidates: set<DeviceId>)
      requires UniqueKeys(devices, ids) && ids.Keys == devices.Keys
      ensures candidates == Candidates(devices, ids, a)
    {
      candidates := {};
      if Truthy(a.adbSerial) {
        if d :| d in devices && devices[d].adbSerial == a.adbSerial { candidates := candidates + {d}; }
      }
      assert forall d <- devices :: AdbMatch(devices, a, d) ==> d in candidates;
      if Truthy(a.roSerialno) {
        if d :| d in devices && devices[d].roSerialno == a.roSerialno { candidates := candidates + {d}; }
      }
      ghost var bySerial := candidates;
      assert forall d :: d in bySerial <==> AdbMatch(devices, a, d) || RoMatch(devices, a, d);
      for i := 0 to |ID_FIELDS|
        invariant forall d :: d in candidates <==> d in bySerial || MatchedUpTo(ids, a, d, i)
      {
        candidates := AddRow(ids, a, ID_FIELDS[i], candidates);
      }
      forall d <- devices ensures d in candidates <==> Matches(devices, ids, a, d) {
        UpToAll(ids, a, d);
      }
      assert forall d <- candidates :: d in devices by {
        forall d <- candidates ensures d in devices {
          if d !in bySerial { UpToIsRow(ids, a, d, |ID_FIELDS|); }
        }
      }
    }

    /** `_resolve_existing_device`. */
    method ResolveExistingDevice(a: DeviceArgs) returns (found: Result<Option<DeviceId>, Refusal>)
      requires UniqueKeys(devices, ids) && ids.Keys == devices.Keys
      ensures found == Resolution(devices, ids, a)
    {
      var candidates := CollectCandidates(a);
      if |candidates| > 1 { return Failure(Conflict); }
      if candidates == {} { return Success(None); }
      var d :| d in candidates;
      OnlyMember(candidates, d);
      var clashing := FindClash(devices[d], ids[d], a);
      if clashing { return Failure(Conflict); }
      return Success(Some(d));
    }

    /** The statements of `upsert_physical_device` that write. */
    method WriteDevice(target: DeviceId, device: Device, row: Identifiers, serial: Option<string>) returns (ok: bool)
      modifies this
      ensures ok <==> UniqueKeys(old(devices)[target := device], old(ids)[target := row])
      ensures State() == if ok then WithRows(old(State()), target, device, row, serial) else old(State())
    {
      var savedDevices, savedIds, savedUsb := devices, ids, usb;
      var before := State().ImageOf(DeviceEntity(target));
      devices := devices[target := device];
      var serialsOk := AdbUnique(devices) && RoUnique(devices);
      if !serialsOk {
        devices := savedDevices;
        return false;
      }
      if Truthy(serial) { usb := usb + {(target, serial.value)}; }
      ids := ids[target := row];
      var idsOk := IdsUnique(ids);
      if !idsOk {
        devices, ids, usb := savedDevices, savedIds, savedUsb;
        return false;
      }
      events := events + [Event("device_upsert", DeviceEntity(target), before, DeviceImage(device), "upsert-device")];
      return true;
    }

    /** `upsert_physical_device`. */
    method UpsertPhysicalDevice(a: DeviceArgs, newId: DeviceId, now: Instant) returns (r: Result<DeviceId, Refusal>)
      requires Valid()
      modifies this
      ensures Valid()
      ensures Done(old(State()), DeviceCall(a, newId, now), State(), r)
      ensures r.Success? ==> r.value == TheOne(Candidates(old(devices), old(ids), a), newId)
    {
      ExecuteKeepsAll(State(), DeviceCall(a, newId, now));
      r := WriteResolved(a, newId, now);
    }

    /** The transaction itself. */
    method WriteResolved(a: DeviceArgs, newId: DeviceId, now: Instant) returns (r: Result<DeviceId, Refusal>)
      requires Valid()
      modifies this
      ensures Done(old(State()), DeviceCall(a, newId, now), State(), r)
      ensures r.Success? ==> r.value == TheOne(Candidates(old(devices), old(ids), a), newId)
    {
      ghost var before := State();
      if a.lifecycle !in LIFECYCLE_STATUSES || a.confidence !in CONFIDENCE_LEVELS { return Failure(Invalid); }
      var existing := ResolveExistingDevice(a);
      ByResolution(before, a, newId, now);
      if existing.Failure? { return Failure(existing.error); }
      if existing.value.None? && newId in devices { return Failure(Integrity); }
      var target := existing.value.GetOr(newId);
      var device := MergeDevice(if target in devices then Some(devices[target]) else None, a, now);
      var row := MergeIdentifiers(if target in ids then ids[target] else NO_IDENTIFIERS, a);
      var ok := WriteDevice(target, device, row, a.adbSerial);
      return if ok then Success(target) else Failure(Integrity);
    }

    /** The rows of three queries by digest, added to those found already. */
    method CollectSims(iccid: Option<string>, msisdn: Option<string>, subscription: Option<string>, found: set<SimId>)
      returns (candidates: set<SimId>)
      requires SimKeys(sims)
      ensures forall s :: s in candidates <==> (s in found || (s in sims && (
        SameHash(iccid, sims[s].iccid) || SameHash(msisdn, sims[s].msisdn)
          || SameHash(subscription, sims[s].subscription))))
    {
      candidates := AddSim(sims, iccid, Iccid, found);
      candidates := AddSim(sims, msisdn, Msisdn, candidates);
      candidates := AddSim(sims, subscription, SubscriptionId, candidates);
    }

    /** `upsert_sim_profile`, from its resolution on. */
    method WriteSim(a: SimArgs, target: SimId, now: Instant) returns (ok: bool)
      modifies this
      ensures var db' := WithSim(old(State()), a, target, now); var device := db'.sims[target].device;
        && (ok <==> SimKeys(db'.sims) && (device.Some? ==> device.value in old(devices)))
        && State() == if ok then db' else old(State())
    {
      var savedSims := sims;
      var row := MergeSim(if target in sims then Some(sims[target]) else None, a, now);
      var beforeImage := State().ImageOf(SimEntity(target));
      sims := sims[target := row];
      if !SimKeys(sims) || (row.device.Some? && row.device.value !in devices) {
        sims := savedSims;
        return false;
      }
      events := events + [Event("sim_upsert", SimEntity(target), beforeImage, SafeSim(row), "upsert-sim")];
      return true;
    }

    /** `upsert_sim_profile`. */
    method UpsertSimProfile(a: SimArgs, newId: SimId, now: Instant) returns (r: Result<SimId, Refusal>)
      requires Valid()
      modifies this
      ensures Valid()
      ensures Done(old(State()), SimCall(a, newId, now), State(), r)
      ensures r.Success? ==> r.value == TheOne(SimCandidates(old(sims), a), newId)
    {
      ExecuteKeepsAll(State(), SimCall(a, newId, now));
      r := WriteMatched(a, newId, now);
    }

    /** The transaction itself. */
    method WriteMatched(a: SimArgs, newId: SimId, now: Instant) returns (r: Result<SimId, Refusal>)
      requires Valid()
      modifies this
      ensures Done(old(State()), SimCall(a, newId, now), State(), r)
      ensures r.Success? ==> r.value == TheOne(SimCandidates(old(sims), a), newId)
    {
      if a.confidence !in CONFIDENCE_LEVELS { return Failure(Invalid); }
      var candidates := CollectSims(a.iccid, a.msisdn, a.subscription, {});
      assert candidates == SimCandidates(sims, a);
      if |candidates| > 1 { return Failure(Conflict); }
      var target := newId;
      if candidates != {} {
        target :| target in candidates;
        OnlyMember(candidates, target);
      }
      var ok := WriteSim(a, target, now);
      return if ok then Success(target) else Failure(Integrity);
    }

    /** `_resolve_device_reference`: the rows of five queries, taken together. */
    method ResolveDeviceReference(reference: Option<string>) returns (r: Result<Option<DeviceId>, Refusal>)
      ensures r == ResolveDevice(State(), reference)
    {
      var name := Normalized(reference);
      if name.None? { return Success(None); }
      var rows := RowsNamed(name.value);
      if |rows| > 1 { return Failure(Conflict); }
      if rows == {} { return Failure(NotFound); }
      var d :| d in rows;
      OnlyMember(rows, d);
      return Success(Some(d));
    }

    method RowsNamed(ref: string) returns (rows: set<DeviceId>)
      ensures rows == DevicesNamed(State(), ref)
    {
      rows := if ref in devices then {ref} else {};
      rows := rows + set d <- devices | "asset_tag" in devices[d].attrs && devices[d].attrs["asset_tag"] == ref;
      rows := rows + set d <- devices | devices[d].adbSerial == Some(ref);
      rows := rows + set d <- devices | devices[d].roSerialno == Some(ref);
      rows := rows + set d <- devices | (d, ref) in usb;
      assert rows == DevicesNamed(State(), ref);
    }

    /** `_resolve_sim_reference`. */
    method ResolveSimReference(reference: Option<string>) returns (r: Result<Option<SimId>, Refusal>)
      requires SimKeys(sims)
      ensures r == ResolveSim(State(), reference)
    {
      var name := Normalized(reference);
      if name.None? { return Success(None); }
      var ref := name.value;
      var candidates := CollectSims(Some(ref), Some(ref), Some(ref), if ref in sims then {ref} else {});
      assert candidates == SimsNamed(State(), ref);
      if |candidates| > 1 { return Failure(Conflict); }
      if candidates == {} { return Failure(NotFound); }
      var s :| s in candidates;
      OnlyMember(candidates, s);
      return Success(Some(s));
    }

    /** The active assignment of the bot, if any, ends. */
    method CloseActive(slug: string, now: Instant)
      requires |ActiveRows(bots, slug)| <= 1
      modifies this
      ensures State() == ClosePrevious(old(State()), slug, now) && order == old(order)
    {
      var active := ActiveRows(bots, slug);
      if active != {} {
        var id :| id in active;
        OnlyMember(active, id);
        var closed := Closed(bots[id], now);
        events := events + [Event("bot_assignment_closed", BotEntity(id), State().ImageOf(BotEntity(id)),
                                  SafeBot(closed), "close-previous-assignment")];
        bots := bots[id := closed];
      }
    }

    /** `assign_bot`, from its checks on. */
    method WriteAssignment(b: BotArgs, device: Option<DeviceId>, sim: Option<SimId>, newId: AssignmentId, now: Instant)
      returns (ok: bool)
      requires b.trustNote.Some? && |ActiveRows(bots, b.slug)| <= 1
      modifies this
      ensures var db' := WithBot(ClosePrevious(old(State()), b.slug, now), newId, NewBot(b, device, sim, now),
        b.reason);
        && (ok <==> newId !in old(bots) && ActiveUnique(db'.bots))
        && State() == if ok then db' else old(State())
    {
      var savedBots, savedEvents := bots, events;
      CloseActive(b.slug, now);
      var row := NewBot(b, device, sim, now);
      if newId in bots || !ActiveUnique(bots[newId := row]) {
        bots, events := savedBots, savedEvents;
        return false;
      }
      bots, order := bots[newId := row], order + [newId];
      events := events + [Event("bot_assignment_created", BotEntity(newId), None, SafeBot(row), b.reason)];
      return true;
    }

    /** `assign_bot`. */
    method Assign(b: BotArgs, newId: AssignmentId, now: Instant) returns (r: Result<AssignmentId, Refusal>)
      requires Valid()
      modifies this
      ensures Valid()
      ensures Done(old(State()), BotCall(b, newId, now), State(), r)
      ensures r.Success? ==> r.value == newId
    {
      ExecuteKeepsAll(State(), BotCall(b, newId, now));
      r := AssignChecked(b, newId, now);
    }

    /** The transaction itself. */
    method AssignChecked(b: BotArgs, newId: AssignmentId, now: Instant) returns (r: Result<AssignmentId, Refusal>)
      requires Valid()
      modifies this
      ensures Done(old(State()), BotCall(b, newId, now), State(), r)
      ensures r.Success? ==> r.value == newId
    {
      if NoteMissing(b.trustNote) || b.status !in BOT_STATUSES || b.confidence !in CONFIDENCE_LEVELS {
        return Failure(Invalid);
      }
      var phoneHash := HmacValue(b.phone);
      var device := ResolveDeviceReference(b.device);
      if device.Failure? { return Failure(device.error); }
      var sim := ResolveSimReference(b.sim);
      if sim.Failure? { return Failure(sim.error); }
      if ActiveRows(bots, b.slug) != {} && !b.closePrevious { return Failure(Conflict); }
      if LineBusy(bots, phoneHash, b.slug) { return Failure(Conflict); }
      ActiveIsLast(State(), b.slug);
      var ok := WriteAssignment(b, device.value, sim.value, newId, now);
      return if ok then Success(newId) else Failure(Integrity);
    }

    /** `verify_bot`: the duplicate findings never decide. */
    method VerifyBot(slug: string) returns (pass: bool, active: Option<AssignmentId>)
      requires Valid()
      ensures pass <==> active.Some?
      ensures active.Some? <==> exists id <- bots :: bots[id].active && bots[id].slug == slug
      ensures active.Some? ==> active.value in bots && bots[active.value].active && bots[active.value].slug == slug
      ensures forall id <- bots | bots[id].active && bots[id].slug == slug :: active == Some(id)
    {
      var rows := ActiveRows(bots, slug);
      active := None;
      if rows != {} {
        var id :| id in rows;
        active := Some(id);
      }
      NoDuplicateFindings(State());
      pass := active.Some? && DuplicateFindings(bots) == {};
      assert forall id <- bots | bots[id].active && bots[id].slug == slug :: id in rows;
    }
  }
}
