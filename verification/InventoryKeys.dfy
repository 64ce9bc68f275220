/** Unique and foreign keys of the inventory hold after every run of calls, and which refusals the schema itself
    causes. */
module InventoryKeys {
  import opened Wrappers
  import opened InventoryRows
  import opened InventoryTables

  ghost predicate DeviceTablesOk(db: Db) {
    DevicesOk(db.devices, db.ids) && forall p <- db.usb :: p.0 in db.devices
  }

  ghost predicate SimsOk(db: Db) {
    SimKeys(db.sims) && forall s <- db.sims :: db.sims[s].device.Some? ==> db.sims[s].device.value in db.devices
  }

  ghost predicate BotLinksOk(db: Db) {
    forall i <- db.bots ::
      && (db.bots[i].device.Some? ==> db.bots[i].device.value in db.devices)
      && (db.bots[i].sim.Some? ==> db.bots[i].sim.value in db.sims)
  }

  ghost predicate KeysOk(db: Db) {
    DeviceTablesOk(db) && SimsOk(db) && BotLinksOk(db)
  }

  lemma OnlyMember<T>(c: set<T>, t: T)
    requires t in c && |c| <= 1
    ensures c == {t}
  {
    assert |c - {t}| == 0;
  }

  // Devices.

  /** Past its checks, a device upsert works on a resolved target. */
  lemma PastChecksIsResolved(db: Db, a: DeviceArgs, newId: DeviceId)
    requires DevicesOk(db.devices, db.ids)
    requires var c := Candidates(db.devices, db.ids, a); var target := TheOne(c, newId);
      |c| <= 1 && (c == {} ==> newId !in db.devices)
      && (target in db.devices ==> !Contradicts(db.devices[target], db.ids[target], a))
    ensures ResolvedTo(db.devices, db.ids, a, TheOne(Candidates(db.devices, db.ids, a), newId))
  {
    var c := Candidates(db.devices, db.ids, a);
    if c != {} { OnlyMember(c, TheOne(c, newId)); }
    assert forall d <- db.devices :: Matches(db.devices, db.ids, a, d) ==> d in c;
  }

  /** An accepted device upsert worked on a resolved target. */
  lemma AcceptedIsResolved(db: Db, a: DeviceArgs, newId: DeviceId, now: Instant)
    requires DevicesOk(db.devices, db.ids) && UpsertDevice(db, a, newId, now).Success?
    ensures var target := TheOne(Candidates(db.devices, db.ids, a), newId);
      ResolvedTo(db.devices, db.ids, a, target)
        && UpsertDevice(db, a, newId, now).value == WithDevice(db, a, target, now)
  {
    var c := Candidates(db.devices, db.ids, a);
    if c != {} { OnlyMember(c, TheOne(c, newId)); }
    PastChecksIsResolved(db, a, newId);
  }

  /** With a fresh id, the schema refuses a device upsert exactly when it got past resolution and the digest of its
      read-only serial is another device's serial number, or an empty text it gives is another device's serial. */
  lemma SchemaRefusesDeviceIff(db: Db, a: DeviceArgs, newId: DeviceId, now: Instant)
    requires DevicesOk(db.devices, db.ids) && newId !in db.devices
    requires a.lifecycle in LIFECYCLE_STATUSES && a.confidence in CONFIDENCE_LEVELS
    ensures var target := TheOne(Candidates(db.devices, db.ids, a), newId);
      (UpsertDevice(db, a, newId, now) == Failure(Integrity)) <==>
      (UpsertDevice(db, a, newId, now) != Failure(Conflict)
        && (SerialTaken(db.ids, a, target) || EmptyTaken(db.devices, a, target)))
  {
    var c := Candidates(db.devices, db.ids, a);
    var target := TheOne(c, newId);
    if |c| <= 1 && !(c != {} && Contradicts(db.devices[target], db.ids[target], a)) {
      PastChecksIsResolved(db, a, newId);
      ResolutionProtectsKeys(db.devices, db.ids, a, target, now);
    }
  }

  lemma DeviceKeepsKeys(db: Db, a: DeviceArgs, newId: DeviceId, now: Instant)
    requires KeysOk(db) && UpsertDevice(db, a, newId, now).Success?
    ensures KeysOk(UpsertDevice(db, a, newId, now).value)
  {
    var target := TheOne(Candidates(db.devices, db.ids, a), newId);
    var db' := WithDevice(db, a, target, now);
    MergeKeepsDevices(db.devices, db.ids, a, target, db'.devices[target], db'.ids[target]);
  }

  // SIM profiles.

  /** A SIM upsert with at most one candidate keeps all three digests unique, though it may change any of them. */
  lemma SimUpsertIsUnique(sims: Sims, a: SimArgs, newId: SimId, now: Instant, f: SimField)
    requires SimHashUnique(sims, f) && |SimCandidates(sims, a)| <= 1
    ensures var target := TheOne(SimCandidates(sims, a), newId);
      SimHashUnique(sims[target := MergeSim(if target in sims then Some(sims[target]) else None, a, now)], f)
  {
    var c := SimCandidates(sims, a);
    var target := TheOne(c, newId);
    if c != {} { OnlyMember(c, target); }
    forall s <- sims | s != target ensures !SameHash(a.Given(f), sims[s].At(f)) { assert s !in c; }
  }

  /** The schema refuses a SIM upsert exactly for a device that does not exist. */
  lemma SchemaRefusesSimIff(db: Db, a: SimArgs, newId: SimId, now: Instant)
    requires SimsOk(db)
    ensures (UpsertSim(db, a, newId, now) == Failure(Integrity)) <==>
      (a.confidence in CONFIDENCE_LEVELS && |SimCandidates(db.sims, a)| <= 1
      && a.device.Some? && a.device.value !in db.devices)
  {
    if |SimCandidates(db.sims, a)| <= 1 {
      SimUpsertIsUnique(db.sims, a, newId, now, Iccid);
      SimUpsertIsUnique(db.sims, a, newId, now, Msisdn);
      SimUpsertIsUnique(db.sims, a, newId, now, SubscriptionId);
    }
  }

  /** The columns of an upserted SIM stay in step, unless a blank text is given where the row has a value. */
  lemma SimStaysInStepIff(old_: Sim, a: SimArgs, now: Instant, f: SimField)
    requires old_.At(f).InStep()
    ensures MergeSim(Some(old_), a, now).At(f).InStep()
      <==> !(a.Given(f).Some? && Blank(a.Given(f).value) && old_.At(f).hash.Some?)
  {
    CoalesceKeepsStepIff(a.Given(f), old_.At(f));
  }

  // Bot assignments.

  lemma ResolvedExists(db: Db, b: BotArgs)
    ensures var d := ResolveDevice(db, b.device); d.Success? && d.value.Some? ==> d.value.value in db.devices
    ensures var s := ResolveSim(db, b.sim); s.Success? && s.value.Some? ==> s.value.value in db.sims
  {
  }

  lemma CloseKeepsLinks(db: Db, slug: string, now: Instant)
    requires BotLinksOk(db)
    ensures var db1 := ClosePrevious(db, slug, now);
      BotLinksOk(db1) && db1 == db.(bots := db1.bots, events := db1.events)
  {
  }

  lemma BotKeepsKeys(db: Db, b: BotArgs, newId: AssignmentId, now: Instant)
    requires KeysOk(db) && AssignBot(db, b, newId, now).Success?
    ensures KeysOk(AssignBot(db, b, newId, now).value)
  {
    ResolvedExists(db, b);
    CloseKeepsLinks(db, b.slug, now);
  }

  // Runs.

  lemma ExecuteKeepsKeys(db: Db, c: Call)
    requires KeysOk(db)
    ensures KeysOk(Execute(db, c))
  {
    if Outcome(db, c).Success? {
      match c
      case DeviceCall(a, newId, now) => DeviceKeepsKeys(db, a, newId, now);
      case SimCall(a, newId, now) =>
      case BotCall(b, newId, now) => BotKeepsKeys(db, b, newId, now);
    }
  }

  /** Every unique and foreign key of the schema, and the step of the identifier columns, hold after any calls. */
  lemma {:induction false} RunKeepsKeys(calls: seq<Call>)
    ensures KeysOk(Run(calls))
  {
    if calls == [] {
    } else {
      RunKeepsKeys(calls[..|calls| - 1]);
      ExecuteKeepsKeys(Run(calls[..|calls| - 1]), calls[|calls| - 1]);
    }
  }

  /** The arguments put the empty text over a serial. */
  predicate EmptiesSerial(device: Device, a: DeviceArgs) {
    || (a.adbSerial == Some("") && Truthy(device.adbSerial))
    || (a.roSerialno == Some("") && Truthy(device.roSerialno))
  }

  /** The call is an accepted upsert of `d` that puts the empty text over a serial. */
  ghost predicate Empties(db: Db, c: Call, d: DeviceId) {
    && c.DeviceCall? && Outcome(db, c).Success? && d in db.devices
    && d == TheOne(Candidates(db.devices, db.ids, c.device), c.newDevice)
    && EmptiesSerial(db.devices[d], c.device)
  }

  /** A digest that is compared: not that of a serial number whose read-only serial has become the empty text. */
  predicate Guarded(db: Db, d: DeviceId, f: IdField)
    requires d in db.devices && d in db.ids
  {
    db.ids[d].At(f).hash.Some? && (f == SerialNumber ==> Truthy(db.devices[d].roSerialno))
  }

  /** The identity of `d` in `db` is still there in `db'`. */
  ghost predicate IdentityKept(db: Db, db': Db, d: DeviceId) {
    d in db.devices && d in db.ids ==> (
      && d in db'.devices && d in db'.ids
      && (Truthy(db.devices[d].adbSerial) ==> db'.devices[d].adbSerial == db.devices[d].adbSerial)
      && (Truthy(db.devices[d].roSerialno) ==> db'.devices[d].roSerialno == db.devices[d].roSerialno)
      && forall f: IdField | Guarded(db, d, f) :: db'.ids[d].At(f).hash == db.ids[d].At(f).hash)
  }

  lemma DeviceKeepsDigests(db: Db, a: DeviceArgs, d: DeviceId)
    requires DevicesOk(db.devices, db.ids) && SerialsOk(db.devices, db.ids)
    requires ResolvedTo(db.devices, db.ids, a, d) && d in db.devices
    ensures forall f: IdField | Guarded(db, d, f) ::
      MergeIdentifiers(db.ids[d], a).At(f).hash == db.ids[d].At(f).hash
  {
    forall f: IdField | Guarded(db, d, f)
      ensures MergeIdentifiers(db.ids[d], a).At(f).hash == db.ids[d].At(f).hash
    {
      DigestsNeverChangeIff(db.devices, db.ids, a, d, f);
    }
  }

  lemma TargetKeepsIdentityIff(db: Db, a: DeviceArgs, now: Instant, d: DeviceId)
    requires DevicesOk(db.devices, db.ids) && SerialsOk(db.devices, db.ids)
    requires ResolvedTo(db.devices, db.ids, a, d) && d in db.devices
    ensures IdentityKept(db, WithDevice(db, a, d, now), d) <==> !EmptiesSerial(db.devices[d], a)
  {
    DeviceKeepsDigests(db, a, d);
    SerialsNeverChangeIff(db.devices, db.ids, a, d, now);
  }

  lemma OtherKeepsIdentity(db: Db, a: DeviceArgs, target: DeviceId, now: Instant, d: DeviceId)
    requires d == target ==> d !in db.devices
    ensures IdentityKept(db, WithDevice(db, a, target, now), d)
  {
  }

  /** Calls about SIMs and bots, and refused calls, leave the devices alone. */
  lemma OtherCallsKeepDevices(db: Db, c: Call)
    requires c.DeviceCall? ==> Outcome(db, c).Failure?
    ensures Execute(db, c).devices == db.devices && Execute(db, c).ids == db.ids
  {
  }

  lemma ExecuteKeepsSerials(db: Db, c: Call)
    requires DevicesOk(db.devices, db.ids) && SerialsOk(db.devices, db.ids)
    ensures SerialsOk(Execute(db, c).devices, Execute(db, c).ids)
  {
    if c.DeviceCall? && UpsertDevice(db, c.device, c.newDevice, c.now).Success? {
      AcceptedIsResolved(db, c.device, c.newDevice, c.now);
      MergeKeepsSerials(db.devices, db.ids, c.device, TheOne(Candidates(db.devices, db.ids, c.device), c.newDevice),
        c.now);
    } else {
      OtherCallsKeepDevices(db, c);
    }
  }

  lemma ExecuteKeepsIdentityIff(db: Db, c: Call, d: DeviceId)
    requires DevicesOk(db.devices, db.ids) && SerialsOk(db.devices, db.ids)
    ensures IdentityKept(db, Execute(db, c), d) <==> !Empties(db, c, d)
  {
    if c.DeviceCall? && UpsertDevice(db, c.device, c.newDevice, c.now).Success? {
      AcceptedIsResolved(db, c.device, c.newDevice, c.now);
      var target := TheOne(Candidates(db.devices, db.ids, c.device), c.newDevice);
      if d == target && d in db.devices { TargetKeepsIdentityIff(db, c.device, c.now, d); }
      else { OtherKeepsIdentity(db, c.device, target, c.now, d); }
    } else {
      OtherCallsKeepDevices(db, c);
    }
  }

  lemma {:induction false} RunKeepsSerials(calls: seq<Call>)
    ensures SerialsOk(Run(calls).devices, Run(calls).ids)
  {
    if calls != [] {
      var n := |calls| - 1;
      RunKeepsSerials(calls[..n]);
      RunKeepsKeys(calls[..n]);
      ExecuteKeepsSerials(Run(calls[..n]), calls[n]);
    }
  }

  /** In any history, a call changes the identity of a device exactly when it puts the empty text over one of its
      serials. */
  lemma IdentityChangesIff(calls: seq<Call>, c: Call, d: DeviceId)
    ensures IdentityKept(Run(calls), Run(calls + [c]), d) <==> !Empties(Run(calls), c, d)
  {
    RunKeepsSerials(calls);
    RunKeepsKeys(calls);
    ExecuteKeepsIdentityIff(Run(calls), c, d);
    assert (calls + [c])[..|calls|] == calls;
  }

  lemma IdentityChains(a: Db, b: Db, c: Db, d: DeviceId)
    requires IdentityKept(a, b, d) && IdentityKept(b, c, d)
    ensures IdentityKept(a, c, d)
  {
    if d in a.devices && d in a.ids {
      forall f: IdField | Guarded(a, d, f) ensures c.ids[d].At(f).hash == a.ids[d].At(f).hash {
        assert Guarded(b, d, f);
      }
    }
  }

  lemma OneMoreCall(a: Db, calls: seq<Call>, c: Call, d: DeviceId)
    requires IdentityKept(a, Run(calls), d) && !Empties(Run(calls), c, d)
    ensures IdentityKept(a, Run(calls + [c]), d)
  {
    IdentityChangesIff(calls, c, d);
    IdentityChains(a, Run(calls), Run(calls + [c]), d);
  }

  /** Identity is for ever: once a device has a serial or the digest of an identifier, every later state of the
      inventory has the same one, as long as no call puts the empty text over a serial of the device. */
  lemma {:induction false} IdentityIsForever(calls: seq<Call>, i: nat, d: DeviceId)
    requires i <= |calls| && forall j | i <= j < |calls| :: !Empties(Run(calls[..j]), calls[j], d)
    ensures IdentityKept(Run(calls[..i]), Run(calls), d)
  {
    if i == |calls| {
      assert calls[..i] == calls;
    } else {
      var n := |calls| - 1;
      assert calls[..n][..i] == calls[..i] && calls[..n] + [calls[n]] == calls;
      forall j | i <= j < n ensures !Empties(Run(calls[..n][..j]), calls[..n][j], d) {
        assert calls[..n][..j] == calls[..j];
      }
      IdentityIsForever(calls[..n], i, d);
      OneMoreCall(Run(calls[..i]), calls[..n], calls[n], d);
    }
  }
}
