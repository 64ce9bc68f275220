/** The rows of `phonectl/asset_inventory.py`, its normalisation of sensitive values, and the resolution of
    a device by its many unique keys. The keyed digest is modelled by the value it is taken over, so it
    is injective. Case folding and white space are the ASCII ones. */
module InventoryRows {
  import opened Wrappers

  type Instant = int
  type DeviceId = string
  type SimId = string
  type AssignmentId = string

  // Normalisation.

  predicate IsSpace(c: char) {
    c == ' ' || c == '\t' || c == '\n' || c == '\r'
  }

  function Strip(s: string): string {
    if s != "" && IsSpace(s[0]) then Strip(s[1..])
    else if s != "" && IsSpace(s[|s| - 1]) then Strip(s[..|s| - 1])
    else s
  }

  /** `normalize_blank` finds nothing in the text. */
  predicate Blank(s: string) {
    Strip(s) == ""
  }

  function ToLower(c: char): char {
    if 'A' <= c <= 'Z' then c - 'A' + 'a' else c
  }

  /** Separators dropped and case folded. */
  function Fold(s: string): string {
    if s == "" then ""
    else if IsSpace(s[0]) || s[0] in "().-" then Fold(s[1..])
    else [ToLower(s[0])] + Fold(s[1..])
  }

  datatype Digest = Hmac(canonical: string)

  /** `hmac_value`. */
  function HmacValue(value: Option<string>): Option<Digest> {
    if value.None? || Blank(value.value) then None else Some(Hmac(Fold(Strip(value.value))))
  }

  function Digits(s: string): string {
    if s == "" then "" else (if '0' <= s[0] <= '9' then [s[0]] else "") + Digits(s[1..])
  }

  function LastFour(s: string): string {
    if |s| <= 4 then s else s[|s| - 4..]
  }

  /** `display_value`. */
  function DisplayValue(value: Option<string>): Option<string> {
    if value.None? || Blank(value.value) then None
    else
      var text := Strip(value.value);
      var digits := Digits(text);
      Some("ending " + LastFour(if |digits| >= 4 then digits else text))
  }

  /** A sensitive value in its three columns. */
  datatype Sensitive = Sensitive(raw: Option<string>, hash: Option<Digest>, display: Option<string>) {
    /** The three columns tell the same value. */
    predicate InStep() {
      hash == HmacValue(raw) && display == DisplayValue(raw)
    }
  }

  const NO_VALUE := Sensitive(None, None, None)

  function SensitiveOf(value: Option<string>): Sensitive {
    Sensitive(value, HmacValue(value), DisplayValue(value))
  }

  function Normalized(value: Option<string>): Option<string> {
    if value.None? || Blank(value.value) then None else Some(Strip(value.value))
  }

  /** `COALESCE(new, old)`, column by column. */
  function Coalesce<T>(new_: Option<T>, old_: Option<T>): Option<T> {
    if new_.Some? then new_ else old_
  }

  function CoalesceSensitive(new_: Sensitive, old_: Sensitive): Sensitive {
    Sensitive(Coalesce(new_.raw, old_.raw), Coalesce(new_.hash, old_.hash), Coalesce(new_.display, old_.display))
  }

  lemma {:induction false} StripTwice(s: string)
    ensures Strip(Strip(s)) == Strip(s)
  {
    if s != "" && IsSpace(s[0]) { StripTwice(s[1..]); }
    else if s != "" && IsSpace(s[|s| - 1]) { StripTwice(s[..|s| - 1]); }
  }

  /** A text that Python takes for true. */
  predicate Truthy(value: Option<string>) {
    value.Some? && value.value != ""
  }

  /** The three columns, coalesced one by one, stay in step exactly when a blank text does not meet a row that
      has a value: there the blank replaces the raw column alone. */
  lemma CoalesceKeepsStepIff(new_: Option<string>, old_: Sensitive)
    requires old_.InStep()
    ensures CoalesceSensitive(SensitiveOf(new_), old_).InStep()
      <==> !(new_.Some? && Blank(new_.value) && old_.hash.Some?)
    ensures new_.Some? && !Blank(new_.value) ==> CoalesceSensitive(SensitiveOf(new_), old_) == SensitiveOf(new_)
    ensures new_.None? ==> CoalesceSensitive(SensitiveOf(new_), old_) == old_
  {
  }

  // Devices.

  datatype IdField = ImeiSlot1 | ImeiSlot2 | EsimImei | Eid | Meid | SerialNumber | AndroidId

  const ID_FIELDS: seq<IdField> := [ImeiSlot1, ImeiSlot2, EsimImei, Eid, Meid, SerialNumber, AndroidId]

  lemma AllFieldsListed(f: IdField)
    ensures f in ID_FIELDS
  {
    assert ID_FIELDS[0] == ImeiSlot1 && ID_FIELDS[1] == ImeiSlot2 && ID_FIELDS[2] == EsimImei && ID_FIELDS[3] == Eid
        && ID_FIELDS[4] == Meid && ID_FIELDS[5] == SerialNumber && ID_FIELDS[6] == AndroidId;
  }

  /** A row of `physical_device`; `attrs` are its other nullable columns, those that are set. */
  datatype Device = Device(
    adbSerial: Option<string>, roSerialno: Option<string>, attrs: map<string, string>, lifecycle: string,
    source: string, confidence: string, firstSeen: Instant, lastSeen: Instant, createdAt: Instant, updatedAt: Instant)

  /** A row of `device_identifiers`, field by field. */
  datatype Identifiers = Identifiers(
    imeiSlot1: Sensitive, imeiSlot2: Sensitive, esimImei: Sensitive, eid: Sensitive, meid: Sensitive,
    serialNumber: Sensitive, androidId: Sensitive)
  {
    function At(f: IdField): Sensitive {
      match f
      case ImeiSlot1 => imeiSlot1
      case ImeiSlot2 => imeiSlot2
      case EsimImei => esimImei
      case Eid => eid
      case Meid => meid
      case SerialNumber => serialNumber
      case AndroidId => androidId
    }
  }

  const NO_IDENTIFIERS := Identifiers(NO_VALUE, NO_VALUE, NO_VALUE, NO_VALUE, NO_VALUE, NO_VALUE, NO_VALUE)

  type Devices = map<DeviceId, Device>
  type IdTable = map<DeviceId, Identifiers>

  /** The arguments of `upsert_physical_device`; identifiers and attributes that are `None` are left out. */
  datatype DeviceArgs = DeviceArgs(
    adbSerial: Option<string>, roSerialno: Option<string>, attrs: map<string, string>, ids: map<IdField, string>,
    lifecycle: string, source: string, confidence: string)
  {
    function Given(f: IdField): Option<string> {
      if f in ids then Some(ids[f]) else None
    }

    /** What `_upsert_device_identifiers` is handed: the serial number is always the read-only serial. */
    function Stored(f: IdField): Option<string> {
      Normalized(if f == SerialNumber then roSerialno else Given(f))
    }
  }

  function MergeIdentifiers(old_: Identifiers, a: DeviceArgs): Identifiers {
    Identifiers(
      CoalesceSensitive(SensitiveOf(a.Stored(ImeiSlot1)), old_.imeiSlot1),
      CoalesceSensitive(SensitiveOf(a.Stored(ImeiSlot2)), old_.imeiSlot2),
      CoalesceSensitive(SensitiveOf(a.Stored(EsimImei)), old_.esimImei),
      CoalesceSensitive(SensitiveOf(a.Stored(Eid)), old_.eid),
      CoalesceSensitive(SensitiveOf(a.Stored(Meid)), old_.meid),
      CoalesceSensitive(SensitiveOf(a.Stored(SerialNumber)), old_.serialNumber),
      CoalesceSensitive(SensitiveOf(a.Stored(AndroidId)), old_.androidId))
  }

  function MergeDevice(old_: Option<Device>, a: DeviceArgs, now: Instant): Device {
    match old_
    case None => Device(a.adbSerial, a.roSerialno, a.attrs, a.lifecycle, a.source, a.confidence, now, now, now, now)
    case Some(d) =>
      Device(Coalesce(a.adbSerial, d.adbSerial), Coalesce(a.roSerialno, d.roSerialno), d.attrs + a.attrs,
             a.lifecycle, a.source, a.confidence, d.firstSeen, now, d.createdAt, now)
  }

  // Resolution.

  predicate AdbMatch(devices: Devices, a: DeviceArgs, d: DeviceId) {
    Truthy(a.adbSerial) && d in devices && devices[d].adbSerial == a.adbSerial
  }

  predicate RoMatch(devices: Devices, a: DeviceArgs, d: DeviceId) {
    Truthy(a.roSerialno) && d in devices && devices[d].roSerialno == a.roSerialno
  }

  predicate IdMatch(table: IdTable, a: DeviceArgs, f: IdField, d: DeviceId) {
    HmacValue(a.Given(f)).Some? && d in table && table[d].At(f).hash == HmacValue(a.Given(f))
  }

  /** Some unique key of the arguments belongs to `d`. */
  predicate Matches(devices: Devices, table: IdTable, a: DeviceArgs, d: DeviceId) {
    AdbMatch(devices, a, d) || RoMatch(devices, a, d) || exists f <- ID_FIELDS :: IdMatch(table, a, f, d)
  }

  predicate SerialClash(new_: Option<string>, old_: Option<string>) {
    Truthy(new_) && Truthy(old_) && new_ != old_
  }

  predicate HashClash(new_: Option<Digest>, old_: Option<Digest>) {
    new_.Some? && old_.Some? && new_ != old_
  }

  /** `d` already has another value for one of the given keys. */
  predicate Contradicts(device: Device, ids: Identifiers, a: DeviceArgs) {
    || SerialClash(a.adbSerial, device.adbSerial) || SerialClash(a.roSerialno, device.roSerialno)
    || exists f <- ID_FIELDS :: HashClash(HmacValue(a.Given(f)), ids.At(f).hash)
  }

  // The unique keys of the schema.

  predicate AdbUnique(devices: Devices) {
    forall d <- devices, e <- devices :: d != e && devices[d].adbSerial.Some? ==>
      devices[d].adbSerial != devices[e].adbSerial
  }

  predicate RoUnique(devices: Devices) {
    forall d <- devices, e <- devices :: d != e && devices[d].roSerialno.Some? ==>
      devices[d].roSerialno != devices[e].roSerialno
  }

  predicate HashUnique(table: IdTable, f: IdField) {
    forall d <- table, e <- table :: d != e && table[d].At(f).hash.Some? ==> table[d].At(f).hash != table[e].At(f).hash
  }

  predicate IdsUnique(table: IdTable) {
    forall f: IdField :: HashUnique(table, f)
  }

  predicate UniqueKeys(devices: Devices, table: IdTable) {
    AdbUnique(devices) && RoUnique(devices) && IdsUnique(table)
  }

  /** What holds of the device tables between calls. */
  ghost predicate DevicesOk(devices: Devices, table: IdTable) {
    && table.Keys == devices.Keys
    && UniqueKeys(devices, table)
    && AllInStep(table)
  }

  ghost predicate AllInStep(table: IdTable) {
    forall d <- table, f: IdField :: table[d].At(f).InStep()
  }

  /** The serial number identifier is the read-only serial, unless that is a blank text. */
  predicate SerialIsStored(device: Device, ids: Identifiers) {
    && (device.roSerialno.None? ==> ids.serialNumber.raw.None?)
    && (device.roSerialno.Some? && !Blank(device.roSerialno.value) ==>
          ids.serialNumber.raw == Normalized(device.roSerialno))
  }

  ghost predicate SerialsOk(devices: Devices, table: IdTable) {
    table.Keys == devices.Keys && forall d <- devices :: SerialIsStored(devices[d], table[d])
  }

  /** The target of an upsert that got past resolution: its only match, consistent with it, or a new device. */
  predicate ResolvedTo(devices: Devices, table: IdTable, a: DeviceArgs, target: DeviceId) {
    && (forall d <- devices :: Matches(devices, table, a, d) ==> d == target)
    && (target in devices ==>
          Matches(devices, table, a, target) && target in table && !Contradicts(devices[target], table[target], a))
  }

  /** The digest of the read-only serial belongs to another device as its serial number. Resolution does not
      look: it compares the raw serial, and the `serial_number` identifier of the caller. */
  predicate SerialTaken(table: IdTable, a: DeviceArgs, target: DeviceId) {
    && HmacValue(a.roSerialno).Some?
    && exists d <- table :: d != target && table[d].serialNumber.hash == HmacValue(a.roSerialno)
  }

  /** The empty text as a serial, which the source takes for absent in Python and for a value in SQL, is the serial
      of another device already. */
  predicate EmptyTaken(devices: Devices, a: DeviceArgs, target: DeviceId) {
    || (a.adbSerial == Some("") && exists d <- devices :: d != target && devices[d].adbSerial == Some(""))
    || (a.roSerialno == Some("") && exists d <- devices :: d != target && devices[d].roSerialno == Some(""))
  }

  lemma NormalizedHash(value: Option<string>)
    ensures HmacValue(Normalized(value)) == HmacValue(value)
    ensures Normalized(value).Some? ==> !Blank(Normalized(value).value)
    ensures Normalized(Normalized(value)) == Normalized(value)
  {
    if value.Some? { StripTwice(value.value); }
  }

  lemma MergedAt(old_: Identifiers, a: DeviceArgs, f: IdField)
    ensures MergeIdentifiers(old_, a).At(f) == CoalesceSensitive(SensitiveOf(a.Stored(f)), old_.At(f))
  {
  }

  /** In the merged row every field is in step, and its digest is the given one or else the old one. */
  lemma MergedField(old_: Identifiers, a: DeviceArgs, f: IdField)
    requires old_.At(f).InStep()
    ensures var m := MergeIdentifiers(old_, a).At(f);
      && m.InStep()
      && m.hash == Coalesce(HmacValue(if f == SerialNumber then a.roSerialno else a.Given(f)), old_.At(f).hash)
  {
    var value := if f == SerialNumber then a.roSerialno else a.Given(f);
    MergedAt(old_, a, f);
    NormalizedHash(value);
    CoalesceKeepsStepIff(a.Stored(f), old_.At(f));
  }

  lemma OneHashUnique(table: IdTable, target: DeviceId, row: Identifiers, f: IdField)
    requires HashUnique(table, f)
    requires row.At(f).hash.Some? ==> forall d <- table | d != target :: table[d].At(f).hash != row.At(f).hash
    ensures HashUnique(table[target := row], f)
  {
  }

  lemma NoOtherMatch(devices: Devices, table: IdTable, a: DeviceArgs, target: DeviceId, f: IdField, d: DeviceId)
    requires ResolvedTo(devices, table, a, target) && d in devices && d != target
    ensures !IdMatch(table, a, f, d)
  {
    AllFieldsListed(f);
    assert !Matches(devices, table, a, d);
  }

  /** Past resolution, a digest field other than the serial number keeps its uniqueness. */
  lemma ResolutionKeepsHash(devices: Devices, table: IdTable, a: DeviceArgs, target: DeviceId, old_: Identifiers,
                            f: IdField)
    requires table.Keys == devices.Keys && HashUnique(table, f) && old_.At(f).InStep()
    requires ResolvedTo(devices, table, a, target) && f != SerialNumber
    requires old_ == if target in table then table[target] else NO_IDENTIFIERS
    ensures HashUnique(table[target := MergeIdentifiers(old_, a)], f)
  {
    MergedField(old_, a, f);
    NewHashUnique(devices, table, a, target, old_, MergeIdentifiers(old_, a), f);
  }

  lemma NewHashUnique(devices: Devices, table: IdTable, a: DeviceArgs, target: DeviceId, old_: Identifiers,
                      row: Identifiers, f: IdField)
    requires table.Keys == devices.Keys && HashUnique(table, f) && ResolvedTo(devices, table, a, target)
    requires old_ == if target in table then table[target] else NO_IDENTIFIERS
    requires row.At(f).hash == Coalesce(HmacValue(a.Given(f)), old_.At(f).hash)
    ensures HashUnique(table[target := row], f)
  {
    forall d <- table | d != target && row.At(f).hash.Some? ensures table[d].At(f).hash != row.At(f).hash {
      NoOtherMatch(devices, table, a, target, f, d);
    }
    OneHashUnique(table, target, row, f);
  }

  /** The serial number is the exception, and exactly when its digest is taken. */
  lemma SerialHashIff(table: IdTable, a: DeviceArgs, target: DeviceId, old_: Identifiers)
    requires HashUnique(table, SerialNumber) && old_.At(SerialNumber).InStep()
    requires old_ == if target in table then table[target] else NO_IDENTIFIERS
    ensures HashUnique(table[target := MergeIdentifiers(old_, a)], SerialNumber) <==> !SerialTaken(table, a, target)
  {
    MergedField(old_, a, SerialNumber);
    NewSerialHashIff(table, a, target, old_, MergeIdentifiers(old_, a));
  }

  lemma NewSerialHashIff(table: IdTable, a: DeviceArgs, target: DeviceId, old_: Identifiers, row: Identifiers)
    requires HashUnique(table, SerialNumber)
    requires old_ == if target in table then table[target] else NO_IDENTIFIERS
    requires row.serialNumber.hash == Coalesce(HmacValue(a.roSerialno), old_.serialNumber.hash)
    ensures HashUnique(table[target := row], SerialNumber) <==> !SerialTaken(table, a, target)
  {
    if SerialTaken(table, a, target) {
      var d :| d in table && d != target && table[d].serialNumber.hash == HmacValue(a.roSerialno);
      var after := table[target := row];
      assert after[d].At(SerialNumber).hash == after[target].At(SerialNumber).hash;
    } else {
      OneHashUnique(table, target, row, SerialNumber);
    }
  }

  lemma AdbSerialIff(devices: Devices, table: IdTable, a: DeviceArgs, target: DeviceId, row: Device)
    requires AdbUnique(devices) && ResolvedTo(devices, table, a, target)
    requires row.adbSerial == Coalesce(a.adbSerial, if target in devices then devices[target].adbSerial else None)
    ensures AdbUnique(devices[target := row])
      <==> !(a.adbSerial == Some("") && exists d <- devices :: d != target && devices[d].adbSerial == Some(""))
  {
    var after := devices[target := row];
    forall d <- devices | d != target ensures !AdbMatch(devices, a, d) {
      assert AdbMatch(devices, a, d) ==> Matches(devices, table, a, d);
    }
    if d :| a.adbSerial == Some("") && d in devices && d != target && devices[d].adbSerial == Some("") {
      assert after[d].adbSerial == after[target].adbSerial;
    }
  }

  lemma RoSerialIff(devices: Devices, table: IdTable, a: DeviceArgs, target: DeviceId, row: Device)
    requires RoUnique(devices) && ResolvedTo(devices, table, a, target)
    requires row.roSerialno == Coalesce(a.roSerialno, if target in devices then devices[target].roSerialno else None)
    ensures RoUnique(devices[target := row])
      <==> !(a.roSerialno == Some("") && exists d <- devices :: d != target && devices[d].roSerialno == Some(""))
  {
    var after := devices[target := row];
    forall d <- devices | d != target ensures !RoMatch(devices, a, d) {
      assert RoMatch(devices, a, d) ==> Matches(devices, table, a, d);
    }
    if d :| a.roSerialno == Some("") && d in devices && d != target && devices[d].roSerialno == Some("") {
      assert after[d].roSerialno == after[target].roSerialno;
    }
  }

  /** Past resolution the identifier table keeps its unique keys exactly unless the serial's digest is taken. */
  lemma IdsUniqueIff(devices: Devices, table: IdTable, a: DeviceArgs, target: DeviceId, old_: Identifiers)
    requires table.Keys == devices.Keys && IdsUnique(table) && AllInStep(table) && ResolvedTo(devices, table, a, target)
    requires old_ == if target in table then table[target] else NO_IDENTIFIERS
    ensures IdsUnique(table[target := MergeIdentifiers(old_, a)]) <==> !SerialTaken(table, a, target)
  {
    var after := table[target := MergeIdentifiers(old_, a)];
    assert HashUnique(table, SerialNumber) && old_.At(SerialNumber).InStep();
    SerialHashIff(table, a, target, old_);
    if !SerialTaken(table, a, target) {
      forall f: IdField ensures HashUnique(after, f) {
        assert HashUnique(table, f) && old_.At(f).InStep();
        if f != SerialNumber { ResolutionKeepsHash(devices, table, a, target, old_, f); }
      }
    }
  }

  /** Identity resolution protects the unique keys: an upsert that gets past it breaks no uniqueness of the schema,
      with two exact exceptions: the digest of the serial number, and a second empty text as a serial. */
  lemma ResolutionProtectsKeys(devices: Devices, table: IdTable, a: DeviceArgs, target: DeviceId, now: Instant)
    requires DevicesOk(devices, table) && ResolvedTo(devices, table, a, target)
    ensures var device := MergeDevice(if target in devices then Some(devices[target]) else None, a, now);
      var ids := MergeIdentifiers(if target in table then table[target] else NO_IDENTIFIERS, a);
      UniqueKeys(devices[target := device], table[target := ids]) <==>
      (!SerialTaken(table, a, target) && !EmptyTaken(devices, a, target))
  {
    var device := MergeDevice(if target in devices then Some(devices[target]) else None, a, now);
    AdbSerialIff(devices, table, a, target, device);
    RoSerialIff(devices, table, a, target, device);
    IdsUniqueIff(devices, table, a, target, if target in table then table[target] else NO_IDENTIFIERS);
  }

  /** Once set, a serial of a device changes in exactly one case: the empty text gets past the comparison and
      overwrites. Each serial on its own. */
  lemma SerialsNeverChangeIff(devices: Devices, table: IdTable, a: DeviceArgs, target: DeviceId, now: Instant)
    requires ResolvedTo(devices, table, a, target) && target in devices
    ensures var device := MergeDevice(Some(devices[target]), a, now);
      && (Truthy(devices[target].adbSerial) ==>
        (device.adbSerial == devices[target].adbSerial <==> a.adbSerial != Some("")))
      && (Truthy(devices[target].roSerialno) ==>
        (device.roSerialno == devices[target].roSerialno <==> a.roSerialno != Some("")))
  {
  }

  /** Once set, a digest of a device changes in exactly one case: the read-only serial has become the empty text, so
      that nothing is compared with a new one, and the digest of the serial number follows it. Every other digest is
      compared when it is given. */
  lemma DigestsNeverChangeIff(devices: Devices, table: IdTable, a: DeviceArgs, target: DeviceId, f: IdField)
    requires DevicesOk(devices, table) && SerialsOk(devices, table) && ResolvedTo(devices, table, a, target)
    requires target in devices && table[target].At(f).hash.Some?
    ensures MergeIdentifiers(table[target], a).At(f).hash == table[target].At(f).hash
      <==> !(f == SerialNumber && devices[target].roSerialno == Some("")
             && HmacValue(a.roSerialno).Some? && HmacValue(a.roSerialno) != table[target].serialNumber.hash)
  {
    AllFieldsListed(f);
    MergedField(table[target], a, f);
    if f == SerialNumber {
      NormalizedHash(devices[target].roSerialno);
      NormalizedHash(a.roSerialno);
      assert SerialIsStored(devices[target], table[target]) && table[target].At(f).InStep();
    } else {
      assert !HashClash(HmacValue(a.Given(f)), table[target].At(f).hash);
    }
  }

  /** The device tables stay in order under every upsert that the schema accepts. */
  lemma MergeKeepsDevices(devices: Devices, table: IdTable, a: DeviceArgs, target: DeviceId, device: Device,
                          ids: Identifiers)
    requires DevicesOk(devices, table)
    requires ids == MergeIdentifiers(if target in table then table[target] else NO_IDENTIFIERS, a)
    requires UniqueKeys(devices[target := device], table[target := ids])
    ensures DevicesOk(devices[target := device], table[target := ids])
  {
    var old_ := if target in table then table[target] else NO_IDENTIFIERS;
    forall f: IdField ensures ids.At(f).InStep() { MergedField(old_, a, f); }
    StepKept(table, target, ids);
  }

  lemma StepKept(table: IdTable, target: DeviceId, row: Identifiers)
    requires AllInStep(table) && forall f: IdField :: row.At(f).InStep()
    ensures AllInStep(table[target := row])
  {
  }

  lemma MergeKeepsSerials(devices: Devices, table: IdTable, a: DeviceArgs, target: DeviceId, now: Instant)
    requires SerialsOk(devices, table)
    ensures var device := MergeDevice(if target in devices then Some(devices[target]) else None, a, now);
      var ids := MergeIdentifiers(if target in table then table[target] else NO_IDENTIFIERS, a);
      SerialsOk(devices[target := device], table[target := ids])
  {
    var device := MergeDevice(if target in devices then Some(devices[target]) else None, a, now);
    var old_ := if target in table then table[target] else NO_IDENTIFIERS;
    MergedAt(old_, a, SerialNumber);
    NormalizedHash(a.roSerialno);
    assert target in devices ==> SerialIsStored(devices[target], table[target]);
    assert SerialIsStored(device, MergeIdentifiers(old_, a));
  }
}
