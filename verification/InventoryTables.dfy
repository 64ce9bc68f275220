/** The inventory database of `phonectl/asset_inventory.py` and what each transaction makes of it: a new
    database, or a refusal that rolls back. */
module InventoryTables {
  import opened Wrappers
  import opened InventoryRows

  datatype Refusal = Invalid | Conflict | NotFound | Integrity

  const LIFECYCLE_STATUSES: set<string> := {"active", "staging", "spare", "banned", "retired", "lost", "repair",
    "unknown"}
  const BOT_STATUSES: set<string> := {"active", "staging", "banned", "degraded", "retired", "unknown"}
  const CONFIDENCE_LEVELS: set<string> := {"observed", "attested", "inferred", "unknown"}

  // SIM profiles and bot assignments. `S` is what a row holds of a sensitive value: all three columns in the
  // table, the digest and the display in the journal.

  datatype SimRow<S> = SimRow(
    iccid: S, msisdn: S, subscription: S, kind: string, slotIndex: Option<int>, attrs: map<string, string>,
    activation: string, device: Option<DeviceId>, source: string, confidence: string,
    firstSeen: Instant, lastSeen: Instant, createdAt: Instant, updatedAt: Instant)
  {
    function At(f: SimField): S {
      match f
      case Iccid => iccid
      case Msisdn => msisdn
      case SubscriptionId => subscription
    }
  }

  datatype SimField = Iccid | Msisdn | SubscriptionId

  datatype BotRow<S> = BotRow(
    slug: string, phone: S, authDir: S, device: Option<DeviceId>, sim: Option<SimId>, attrs: map<string, string>,
    servicePort: Option<int>, status: string, startAt: Instant, endAt: Option<Instant>, active: bool,
    trustNote: string, source: string, confidence: string, createdAt: Instant, updatedAt: Instant)

  type Sim = SimRow<Sensitive>
  type Bot = BotRow<Sensitive>
  type Sims = map<SimId, Sim>
  type Bots = map<AssignmentId, Bot>

  datatype SimArgs = SimArgs(
    iccid: Option<string>, msisdn: Option<string>, subscription: Option<string>, kind: string,
    slotIndex: Option<int>, attrs: map<string, string>, activation: string, device: Option<DeviceId>,
    source: string, confidence: string)
  {
    function Given(f: SimField): Option<string> {
      match f
      case Iccid => iccid
      case Msisdn => msisdn
      case SubscriptionId => subscription
    }
  }

  datatype BotArgs = BotArgs(
    slug: string, phone: Option<string>, device: Option<string>, sim: Option<string>, attrs: map<string, string>,
    servicePort: Option<int>, authDir: Option<string>, status: string, trustNote: Option<TrustNote>,
    reason: string, source: string, confidence: string, closePrevious: bool)

  /** The path of a trust note that is a file, and the file's text. */
  datatype TrustNote = TrustNote(path: string, text: string)

  // The audit journal.

  datatype Shown = Shown(hash: Option<Digest>, display: Option<string>)

  function Redact(s: Sensitive): Shown {
    Shown(s.hash, s.display)
  }

  datatype Entity = DeviceEntity(device: DeviceId) | SimEntity(sim: SimId) | BotEntity(assignment: AssignmentId)

  datatype Image = DeviceImage(device: Device) | SimImage(sim: SimRow<Shown>) | BotImage(bot: BotRow<Shown>)

  /** `_safe_record`: the row without its sensitive columns. */
  function SafeSim(s: Sim): Image {
    SimImage(SimRow(Redact(s.iccid), Redact(s.msisdn), Redact(s.subscription), s.kind, s.slotIndex, s.attrs,
                    s.activation, s.device, s.source, s.confidence, s.firstSeen, s.lastSeen, s.createdAt, s.updatedAt))
  }

  function SafeBot(b: Bot): Image {
    BotImage(BotRow(b.slug, Redact(b.phone), Redact(b.authDir), b.device, b.sim, b.attrs, b.servicePort, b.status,
                    b.startAt, b.endAt, b.active, b.trustNote, b.source, b.confidence, b.createdAt, b.updatedAt))
  }

  datatype Event = Event(kind: string, entity: Entity, before: Option<Image>, after: Image, reason: string)

  /** The tables; `order` lists the bot assignments in the order of their insertion. */
  datatype Db = Db(
    devices: Devices, ids: IdTable, usb: set<(DeviceId, string)>, sims: Sims, bots: Bots, order: seq<AssignmentId>,
    events: seq<Event>)
  {
    function ImageOf(e: Entity): Option<Image> {
      match e
      case DeviceEntity(d) => if d in devices then Some(DeviceImage(devices[d])) else None
      case SimEntity(s) => if s in sims then Some(SafeSim(sims[s])) else None
      case BotEntity(b) => if b in bots then Some(SafeBot(bots[b])) else None
    }
  }

  const EMPTY := Db(map[], map[], {}, map[], map[], [], [])

  ghost function TheOne<T>(candidates: set<T>, other: T): T {
    if candidates == {} then other else var t :| t in candidates; t
  }

  // `upsert_physical_device`.

  function Candidates(devices: Devices, table: IdTable, a: DeviceArgs): set<DeviceId> {
    set d <- devices | Matches(devices, table, a, d)
  }

  function WithRows(db: Db, target: DeviceId, device: Device, row: Identifiers, serial: Option<string>): Db {
    db.(devices := db.devices[target := device],
        ids := db.ids[target := row],
        usb := db.usb + if Truthy(serial) then {(target, serial.value)} else {},
        events := db.events + [Event("device_upsert", DeviceEntity(target), db.ImageOf(DeviceEntity(target)),
          DeviceImage(device), "upsert-device")])
  }

  function WithDevice(db: Db, a: DeviceArgs, target: DeviceId, now: Instant): Db {
    WithRows(db, target,
             MergeDevice(if target in db.devices then Some(db.devices[target]) else None, a, now),
             MergeIdentifiers(if target in db.ids then db.ids[target] else NO_IDENTIFIERS, a),
             a.adbSerial)
  }

  ghost function UpsertDevice(db: Db, a: DeviceArgs, newId: DeviceId, now: Instant): Result<Db, Refusal> {
    var candidates := Candidates(db.devices, db.ids, a);
    var target := TheOne(candidates, newId);
    if a.lifecycle !in LIFECYCLE_STATUSES || a.confidence !in CONFIDENCE_LEVELS then Failure(Invalid)
    else if |candidates| > 1 then Failure(Conflict)
    else if candidates != {} && target in db.devices && target in db.ids
      && Contradicts(db.devices[target], db.ids[target], a)
    then Failure(Conflict)
    else if candidates == {} && target in db.devices then Failure(Integrity)
    else
      var db' := WithDevice(db, a, target, now);
      if UniqueKeys(db'.devices, db'.ids) then Success(db') else Failure(Integrity)
  }

  // `upsert_sim_profile`.

  predicate SameHash(given: Option<string>, column: Sensitive) {
    HmacValue(given).Some? && column.hash == HmacValue(given)
  }

  predicate SimMatches(s: Sim, a: SimArgs) {
    SameHash(a.iccid, s.iccid) || SameHash(a.msisdn, s.msisdn) || SameHash(a.subscription, s.subscription)
  }

  function SimCandidates(sims: Sims, a: SimArgs): set<SimId> {
    set s <- sims | SimMatches(sims[s], a)
  }

  function MergeSim(old_: Option<Sim>, a: SimArgs, now: Instant): Sim {
    match old_
    case None =>
      SimRow(SensitiveOf(a.iccid), SensitiveOf(a.msisdn), SensitiveOf(a.subscription), a.kind, a.slotIndex, a.attrs,
             a.activation, a.device, a.source, a.confidence, now, now, now, now)
    case Some(s) =>
      SimRow(CoalesceSensitive(SensitiveOf(a.iccid), s.iccid), CoalesceSensitive(SensitiveOf(a.msisdn), s.msisdn),
             CoalesceSensitive(SensitiveOf(a.subscription), s.subscription), a.kind, Coalesce(a.slotIndex, s.slotIndex),
             s.attrs + a.attrs, a.activation, Coalesce(a.device, s.device), a.source, a.confidence,
             s.firstSeen, now, s.createdAt, now)
  }

  predicate SimHashUnique(sims: Sims, f: SimField) {
    forall s <- sims, t <- sims :: s != t && sims[s].At(f).hash.Some? ==> sims[s].At(f).hash != sims[t].At(f).hash
  }

  predicate SimKeys(sims: Sims) {
    SimHashUnique(sims, Iccid) && SimHashUnique(sims, Msisdn) && SimHashUnique(sims, SubscriptionId)
  }

  function WithSim(db: Db, a: SimArgs, target: SimId, now: Instant): Db {
    var sim := MergeSim(if target in db.sims then Some(db.sims[target]) else None, a, now);
    db.(sims := db.sims[target := sim],
        events := db.events + [Event("sim_upsert", SimEntity(target), db.ImageOf(SimEntity(target)), SafeSim(sim),
          "upsert-sim")])
  }

  ghost function UpsertSim(db: Db, a: SimArgs, newId: SimId, now: Instant): Result<Db, Refusal> {
    var candidates := SimCandidates(db.sims, a);
    var target := TheOne(candidates, newId);
    if a.confidence !in CONFIDENCE_LEVELS then Failure(Invalid)
    else if |candidates| > 1 then Failure(Conflict)
    else
      var db' := WithSim(db, a, target, now);
      var device := db'.sims[target].device;
      if SimKeys(db'.sims) && (device.Some? ==> device.value in db.devices) then Success(db') else Failure(Integrity)
  }

  // `assign_bot`.

  predicate DeviceNamed(db: Db, d: DeviceId, name: string)
    requires d in db.devices
  {
    || d == name || ("asset_tag" in db.devices[d].attrs && db.devices[d].attrs["asset_tag"] == name)
    || db.devices[d].adbSerial == Some(name) || db.devices[d].roSerialno == Some(name) || (d, name) in db.usb
  }

  predicate SimNamed(s: SimId, sim: Sim, name: string) {
    || s == name || SameHash(Some(name), sim.iccid) || SameHash(Some(name), sim.msisdn)
    || SameHash(Some(name), sim.subscription)
  }

  function DevicesNamed(db: Db, name: string): set<DeviceId> {
    set d <- db.devices | DeviceNamed(db, d, name)
  }

  function SimsNamed(db: Db, name: string): set<SimId> {
    set s <- db.sims | SimNamed(s, db.sims[s], name)
  }

  ghost function Resolved<T>(candidates: set<T>): Result<Option<T>, Refusal> {
    if |candidates| > 1 then Failure(Conflict)
    else if candidates == {} then Failure(NotFound)
    else var t :| t in candidates; Success(Some(t))
  }

  /** `_resolve_device_reference` and `_resolve_sim_reference`. */
  ghost function ResolveDevice(db: Db, reference: Option<string>): Result<Option<DeviceId>, Refusal> {
    var name := Normalized(reference);
    if name.None? then Success(None) else Resolved(DevicesNamed(db, name.value))
  }

  ghost function ResolveSim(db: Db, reference: Option<string>): Result<Option<SimId>, Refusal> {
    var name := Normalized(reference);
    if name.None? then Success(None) else Resolved(SimsNamed(db, name.value))
  }

  function ActiveRows(bots: Bots, slug: string): set<AssignmentId> {
    set i <- bots | bots[i].active && bots[i].slug == slug
  }

  /** The line is active on another bot. */
  predicate LineBusy(bots: Bots, phone: Option<Digest>, slug: string) {
    phone.Some? && exists i <- bots :: bots[i].active && bots[i].phone.hash == phone && bots[i].slug != slug
  }

  predicate NoteMissing(note: Option<TrustNote>) {
    note.None? || note.value.path == "" || Blank(note.value.text)
  }

  /** The partial unique indexes over the active assignments. */
  predicate ActiveUnique(bots: Bots) {
    && (forall i <- bots, j <- bots :: i != j && bots[i].active && bots[j].active ==> bots[i].slug != bots[j].slug)
    && (forall i <- bots, j <- bots :: i != j && bots[i].active && bots[j].active && bots[i].phone.hash.Some?
          ==> bots[i].phone.hash != bots[j].phone.hash)
  }

  function Closed(b: Bot, now: Instant): Bot {
    b.(active := false, endAt := Some(now), updatedAt := now)
  }

  function NewBot(b: BotArgs, device: Option<DeviceId>, sim: Option<SimId>, now: Instant): Bot
    requires b.trustNote.Some?
  {
    var authDir := SensitiveOf(b.authDir);
    BotRow(b.slug, SensitiveOf(b.phone), authDir, device, sim, b.attrs, b.servicePort, b.status, now, None, true,
           b.trustNote.value.path, b.source, b.confidence, now, now)
  }

  function WithClosed(db: Db, id: AssignmentId, now: Instant): Db
    requires id in db.bots
  {
    var bot := Closed(db.bots[id], now);
    db.(bots := db.bots[id := bot],
        events := db.events + [Event("bot_assignment_closed", BotEntity(id), db.ImageOf(BotEntity(id)), SafeBot(bot),
          "close-previous-assignment")])
  }

  function WithBot(db: Db, id: AssignmentId, bot: Bot, reason: string): Db {
    db.(bots := db.bots[id := bot], order := db.order + [id],
        events := db.events + [Event("bot_assignment_created", BotEntity(id), None, SafeBot(bot), reason)])
  }

  ghost function ClosePrevious(db: Db, slug: string, now: Instant): Db {
    var active := ActiveRows(db.bots, slug);
    if active == {} then db else var id :| id in active; WithClosed(db, id, now)
  }

  ghost function AssignBot(db: Db, b: BotArgs, newId: AssignmentId, now: Instant): Result<Db, Refusal> {
    var device := ResolveDevice(db, b.device);
    var sim := ResolveSim(db, b.sim);
    if NoteMissing(b.trustNote) || b.status !in BOT_STATUSES || b.confidence !in CONFIDENCE_LEVELS then Failure(Invalid)
    else if device.Failure? then Failure(device.error)
    else if sim.Failure? then Failure(sim.error)
    else if ActiveRows(db.bots, b.slug) != {} && !b.closePrevious then Failure(Conflict)
    else if LineBusy(db.bots, HmacValue(b.phone), b.slug) then Failure(Conflict)
    else if newId in db.bots then Failure(Integrity)
    else
      var db' := WithBot(ClosePrevious(db, b.slug, now), newId, NewBot(b, device.value, sim.value, now), b.reason);
      if ActiveUnique(db'.bots) then Success(db') else Failure(Integrity)
  }

  // `verify_bot`.

  datatype Finding = DuplicateActiveBot(slug: string, count: nat) | DuplicateActiveLine(phone: Digest, count: nat)

  function BotsOnLine(bots: Bots, phone: Digest): set<string> {
    set i <- bots | bots[i].active && bots[i].phone.hash == Some(phone) :: bots[i].slug
  }

  /** `_duplicate_findings`. */
  function DuplicateFindings(bots: Bots): set<Finding> {
    (set i <- bots | bots[i].active && |ActiveRows(bots, bots[i].slug)| > 1
       :: DuplicateActiveBot(bots[i].slug, |ActiveRows(bots, bots[i].slug)|))
    + (set i <- bots | bots[i].active && bots[i].phone.hash.Some? && |BotsOnLine(bots, bots[i].phone.hash.value)| > 1
         :: DuplicateActiveLine(bots[i].phone.hash.value, |BotsOnLine(bots, bots[i].phone.hash.value)|))
  }

  /** The verdict of `verify_bot` is PASS. */
  predicate Passes(bots: Bots, slug: string) {
    ActiveRows(bots, slug) != {} && DuplicateFindings(bots) == {}
  }

  // Runs.

  datatype Call =
    | DeviceCall(device: DeviceArgs, newDevice: DeviceId, now: Instant)
    | SimCall(sim: SimArgs, newSim: SimId, now: Instant)
    | BotCall(bot: BotArgs, newBot: AssignmentId, now: Instant)

  ghost function Outcome(db: Db, c: Call): Result<Db, Refusal> {
    match c
    case DeviceCall(a, newId, now) => UpsertDevice(db, a, newId, now)
    case SimCall(a, newId, now) => UpsertSim(db, a, newId, now)
    case BotCall(b, newId, now) => AssignBot(db, b, newId, now)
  }

  /** A refused call rolls back. */
  ghost function Execute(db: Db, c: Call): Db {
    match Outcome(db, c)
    case Success(db') => db'
    case Failure(_) => db
  }

  ghost function Run(calls: seq<Call>): Db {
    if calls == [] then EMPTY else Execute(Run(calls[..|calls| - 1]), calls[|calls| - 1])
  }
}
