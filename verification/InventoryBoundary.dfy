/** The cases that the theorems about the inventory leave out do occur: for each, calls that lead from the empty
    inventory to it. */
module InventoryBoundary {
  import opened Wrappers
  import opened InventoryRows
  import opened InventoryTables
  import opened InventoryKeys

  function Args(adb: Option<string>, ro: Option<string>): DeviceArgs {
    DeviceArgs(adb, ro, map[], map[], "unknown", "manual", "unknown")
  }

  const PHONE: DeviceId := "phone"
  const OTHER: DeviceId := "other"

  lemma OneMore(calls: seq<Call>, c: Call)
    ensures Run(calls + [c]) == Execute(Run(calls), c)
  {
    assert (calls + [c])[..|calls|] == calls;
  }

  lemma FirstUpsert(a: DeviceArgs)
    requires a.lifecycle == "unknown" && a.confidence == "unknown"
    ensures UpsertDevice(EMPTY, a, PHONE, 0) == Success(WithDevice(EMPTY, a, PHONE, 0))
  {
    assert Candidates(EMPTY.devices, EMPTY.ids, a) == {};
    OneDeviceIsUnique(WithDevice(EMPTY, a, PHONE, 0));
  }

  /** The first device of the inventory is accepted. */
  lemma FirstDevice(adb: Option<string>, ro: Option<string>)
    ensures Run([DeviceCall(Args(adb, ro), PHONE, 0)]) == WithDevice(EMPTY, Args(adb, ro), PHONE, 0)
  {
    var c := DeviceCall(Args(adb, ro), PHONE, 0);
    FirstUpsert(Args(adb, ro));
    OneMore([], c);
    assert [] + [c] == [c];
  }

  lemma OneDeviceIsUnique(db: Db)
    requires db.devices.Keys <= {PHONE} && db.ids.Keys <= {PHONE}
    ensures UniqueKeys(db.devices, db.ids)
  {
  }

  lemma OneCandidate(db: Db, a: DeviceArgs)
    requires db.devices.Keys == {PHONE} && Matches(db.devices, db.ids, a, PHONE)
    ensures Candidates(db.devices, db.ids, a) == {PHONE}
    ensures TheOne(Candidates(db.devices, db.ids, a), OTHER) == PHONE
  {
    assert Candidates(db.devices, db.ids, a) == {PHONE};
  }

  lemma UpsertOfOnlyDevice(db: Db, a: DeviceArgs)
    requires a.lifecycle == "unknown" && a.confidence == "unknown"
    requires db.devices.Keys == {PHONE} && db.ids.Keys == {PHONE} && Matches(db.devices, db.ids, a, PHONE)
    requires !Contradicts(db.devices[PHONE], db.ids[PHONE], a)
    ensures UpsertDevice(db, a, OTHER, 0) == Success(WithDevice(db, a, PHONE, 0))
  {
    OneCandidate(db, a);
    OneDeviceIsUnique(WithDevice(db, a, PHONE, 0));
  }

  /** A further upsert of the only device is accepted when it names it and contradicts nothing. */
  lemma SameDevice(calls: seq<Call>, a: DeviceArgs)
    requires a.lifecycle == "unknown" && a.confidence == "unknown"
    requires var db := Run(calls);
      && db.devices.Keys == {PHONE} && db.ids.Keys == {PHONE} && Matches(db.devices, db.ids, a, PHONE)
      && !Contradicts(db.devices[PHONE], db.ids[PHONE], a)
    ensures var c := DeviceCall(a, OTHER, 0);
      && Outcome(Run(calls), c).Success? && TheOne(Candidates(Run(calls).devices, Run(calls).ids, a), OTHER) == PHONE
      && Run(calls + [c]) == WithDevice(Run(calls), a, PHONE, 0)
  {
    OneCandidate(Run(calls), a);
    UpsertOfOnlyDevice(Run(calls), a);
    OneMore(calls, DeviceCall(a, OTHER, 0));
  }

  lemma CaseFolds()
    ensures HmacValue(Some("r1")) == Some(Hmac("r1")) == HmacValue(Some("R1"))
    ensures Normalized(Some("r1")) == Some("r1") && "r1" != "R1"
  {
    assert "r1"[1..] == "1" && "R1"[1..] == "1" && "1"[1..] == "";
    assert Strip("r1") == "r1" && Strip("R1") == "R1";
    assert Fold("1") == ['1'] + "" == "1";
    assert Fold("r1") == ['r'] + "1" == "r1";
    assert ToLower('R') == 'r' && Fold("R1") == ['r'] + "1";
    assert "r1"[0] != "R1"[0];
  }

  lemma TwoNames()
    ensures PHONE != OTHER
  {
    assert PHONE[0] != OTHER[0];
  }

  /** A device with serial `old_` alone, and an upsert with serial `new_` alone of the same digest. */
  lemma DigestCollides(db: Db, old_: string, new_: string)
    requires db == WithDevice(EMPTY, Args(None, Some(old_)), PHONE, 0) && DevicesOk(db.devices, db.ids)
    requires old_ != new_ && HmacValue(Some(old_)) == HmacValue(Some(new_)) != None
    ensures var a := Args(None, Some(new_));
      && Candidates(db.devices, db.ids, a) == {} && OTHER !in db.devices
      && UpsertDevice(db, a, OTHER, 0) == Failure(Integrity)
  {
    var a := Args(None, Some(new_));
    FirstRow(None, Some(old_));
    TwoNames();
    NothingGiven(a);
    assert !Matches(db.devices, db.ids, a, PHONE);
    assert Candidates(db.devices, db.ids, a) == {};
    StoredSerial(Args(None, Some(old_)));
    assert SerialTaken(db.ids, a, OTHER) by { assert db.ids[PHONE].serialNumber.hash == HmacValue(a.roSerialno); }
    SchemaRefusesDeviceIff(db, a, OTHER, 0);
  }

  /** Two devices whose read-only serials differ only in case pass resolution apart, and the schema refuses the second
      for the digest of its serial. */
  lemma SerialsThatDifferInCaseCollide()
    ensures exists calls, c: Call ::
      && c.DeviceCall? && Outcome(Run(calls), c) == Failure(Integrity)
      && Candidates(Run(calls).devices, Run(calls).ids, c.device) == {} && c.newDevice !in Run(calls).devices
  {
    var calls := [DeviceCall(Args(None, Some("r1")), PHONE, 0)];
    FirstDevice(None, Some("r1"));
    RunKeepsKeys(calls);
    CaseFolds();
    DigestCollides(Run(calls), "r1", "R1");
    assert Outcome(Run(calls), DeviceCall(Args(None, Some("R1")), OTHER, 0)) == Failure(Integrity);
  }

  lemma NothingGiven(a: DeviceArgs)
    requires a.ids == map[]
    ensures forall f: IdField :: HmacValue(a.Given(f)) == None
  {
  }

  lemma StoredSerial(a: DeviceArgs)
    ensures MergeIdentifiers(NO_IDENTIFIERS, a).serialNumber.hash == HmacValue(a.roSerialno)
    ensures MergeIdentifiers(NO_IDENTIFIERS, a).serialNumber.InStep()
  {
    MergedField(NO_IDENTIFIERS, a, SerialNumber);
  }

  lemma FirstRow(adb: Option<string>, ro: Option<string>)
    ensures var db := WithDevice(EMPTY, Args(adb, ro), PHONE, 0);
      && db.devices.Keys == {PHONE} && db.ids.Keys == {PHONE}
      && db.devices[PHONE].adbSerial == adb && db.devices[PHONE].roSerialno == ro
  {
  }

  /** An upsert that names the device by one serial and gives the empty text for the other erases that one. */
  lemma EmptyTextErasesSerial(adb: string, ro: string)
    requires adb != "" && ro != ""
    ensures var before := [DeviceCall(Args(Some(adb), Some(ro)), PHONE, 0)];
      var c := DeviceCall(Args(Some(""), Some(ro)), OTHER, 0);
      && PHONE in Run(before).devices && Run(before).devices[PHONE].adbSerial == Some(adb)
      && Empties(Run(before), c, PHONE)
      && PHONE in Run(before + [c]).devices && Run(before + [c]).devices[PHONE].adbSerial == Some("")
  {
    var before, a := [DeviceCall(Args(Some(adb), Some(ro)), PHONE, 0)], Args(Some(""), Some(ro));
    var db := Run(before);
    FirstDevice(Some(adb), Some(ro));
    FirstRow(Some(adb), Some(ro));
    NothingGiven(a);
    assert RoMatch(db.devices, a, PHONE);
    SameDevice(before, a);
  }

  lemma Merged(db: Db, a: DeviceArgs)
    requires db.devices.Keys == {PHONE} && db.ids.Keys == {PHONE} && db.ids[PHONE].serialNumber.InStep()
    ensures var t := WithDevice(db, a, PHONE, 0);
      && t.devices.Keys == {PHONE} && t.ids.Keys == {PHONE} && t.ids[PHONE].serialNumber.InStep()
      && t.devices[PHONE].adbSerial == Coalesce(a.adbSerial, db.devices[PHONE].adbSerial)
      && t.devices[PHONE].roSerialno == Coalesce(a.roSerialno, db.devices[PHONE].roSerialno)
      && t.ids[PHONE].serialNumber.hash == Coalesce(HmacValue(a.roSerialno), db.ids[PHONE].serialNumber.hash)
  {
    MergedField(db.ids[PHONE], a, SerialNumber);
  }

  /** An upsert of the only device, named by its USB serial. */
  lemma NamedByAdb(calls: seq<Call>, adb: string, ro: string)
    requires var db := Run(calls);
      && db.devices.Keys == {PHONE} && db.ids.Keys == {PHONE} && db.ids[PHONE].serialNumber.InStep()
      && adb != "" && db.devices[PHONE].adbSerial == Some(adb) && !SerialClash(Some(ro), db.devices[PHONE].roSerialno)
    ensures var c := DeviceCall(Args(Some(adb), Some(ro)), OTHER, 0); var t := Run(calls + [c]);
      && t.devices.Keys == {PHONE} && t.ids.Keys == {PHONE} && t.ids[PHONE].serialNumber.InStep()
      && t.devices[PHONE].adbSerial == Some(adb) && t.devices[PHONE].roSerialno == Some(ro)
      && t.ids[PHONE].serialNumber.hash == Coalesce(HmacValue(Some(ro)), Run(calls).ids[PHONE].serialNumber.hash)
  {
    var db, a := Run(calls), Args(Some(adb), Some(ro));
    NothingGiven(a);
    assert AdbMatch(db.devices, a, PHONE);
    SameDevice(calls, a);
    Merged(db, a);
  }

  /** Once the read-only serial has become the empty text, nothing is compared with the next one, and the digest of
      the serial number follows it. */
  lemma EmptiedSerialChangesDigest(adb: string, first: string, second: string)
    requires adb != "" && HmacValue(Some(first)) != HmacValue(Some(second))
    requires HmacValue(Some(first)).Some? && HmacValue(Some(second)).Some?
    ensures var one := [DeviceCall(Args(Some(adb), Some(first)), PHONE, 0)];
      var emptied := one + [DeviceCall(Args(Some(adb), Some("")), OTHER, 0)];
      var last := emptied + [DeviceCall(Args(Some(adb), Some(second)), OTHER, 0)];
      && PHONE in Run(emptied).ids && Run(emptied).ids[PHONE].serialNumber.hash == HmacValue(Some(first))
      && PHONE in Run(last).ids && Run(last).ids[PHONE].serialNumber.hash == HmacValue(Some(second))
  {
    var one := [DeviceCall(Args(Some(adb), Some(first)), PHONE, 0)];
    var emptied := one + [DeviceCall(Args(Some(adb), Some("")), OTHER, 0)];
    FirstDevice(Some(adb), Some(first));
    FirstRow(Some(adb), Some(first));
    StoredSerial(Args(Some(adb), Some(first)));
    EmptyIsNothing();
    NamedByAdb(one, adb, "");
    NamedByAdb(emptied, adb, second);
  }

  lemma EmptyIsNothing()
    ensures HmacValue(Some("")).None?
  {
  }

  // SIM profiles.

  function Line(msisdn: string): SimArgs {
    SimArgs(Some("8910"), Some(msisdn), None, "physical", None, map[], "unknown", None, "manual", "unknown")
  }

  const CARD: SimId := "card"

  lemma OneSimIsUnique(db: Db)
    requires db.sims.Keys <= {CARD}
    ensures SimKeys(db.sims)
  {
  }

  lemma TheLine()
    ensures HmacValue(Some("8910")).Some? && HmacValue(Some("555")).Some? && Blank(" ") && HmacValue(Some(" ")).None?
  {
    assert Strip("8910") == "8910" && Strip("555") == "555" && " "[1..] == "" && Strip(" ") == Strip("");
  }

  lemma SimCalls(calls: seq<Call>, a: SimArgs)
    requires a.confidence == "unknown" && a.device.None?
      && (forall s <- Run(calls).sims :: Run(calls).sims[s].device.None?)
    requires Run(calls).sims.Keys <= {CARD} && (CARD in Run(calls).sims ==> SimMatches(Run(calls).sims[CARD], a))
    ensures Run(calls + [SimCall(a, CARD, 0)]) == WithSim(Run(calls), a, CARD, 0)
  {
    var db, c := Run(calls), SimCall(a, CARD, 0);
    var found := SimCandidates(db.sims, a);
    assert found == db.sims.Keys;
    assert found == {} || found == {CARD};
    assert TheOne(found, CARD) == CARD;
    OneSimIsUnique(WithSim(db, a, CARD, 0));
    assert Outcome(db, c) == UpsertSim(db, a, CARD, 0) == Success(WithSim(db, a, CARD, 0));
    assert (calls + [c])[..|calls|] == calls;
  }

  lemma FirstLine()
    ensures Run([SimCall(Line("555"), CARD, 0)]) == WithSim(EMPTY, Line("555"), CARD, 0)
  {
    assert Run([]) == EMPTY && [] + [SimCall(Line("555"), CARD, 0)] == [SimCall(Line("555"), CARD, 0)];
    SimCalls([], Line("555"));
  }

  lemma BlankLine(db: Db)
    requires db == WithSim(EMPTY, Line("555"), CARD, 0)
    ensures db.sims.Keys == {CARD} && db.sims[CARD].device.None? && SimMatches(db.sims[CARD], Line(" "))
    ensures !WithSim(db, Line(" "), CARD, 0).sims[CARD].msisdn.InStep()
  {
    TheLine();
    SimStaysInStepIff(db.sims[CARD], Line(" "), 0, Msisdn);
  }

  /** A blank phone number given for a SIM that has one leaves its raw column blank and its digest as it was. */
  lemma BlankTextBreaksStep()
    ensures exists calls, s :: s in Run(calls).sims && !Run(calls).sims[s].msisdn.InStep()
  {
    var calls := [SimCall(Line("555"), CARD, 0)];
    FirstLine();
    BlankLine(Run(calls));
    SimCalls(calls, Line(" "));
    assert !Run(calls + [SimCall(Line(" "), CARD, 0)]).sims[CARD].msisdn.InStep();
  }
}
