/** The freshness budget of `scripts/check-fleet-bot-hardening-parity.ts`: the age checks that fail the
    guard, and the predictor that says when they will. Instants are integer milliseconds, days are
    counted from the epoch. */
module Expiry {
  import opened Wrappers

  const MS_PER_DAY := 86_400_000
  const MAX_AGE_MS := 90 * MS_PER_DAY

  /** A date field: missing, not a valid date of its format, or the instant it denotes. */
  datatype DateField = Missing | Malformed | At(ms: int)

  datatype ReceiptField = NoReceipt | ReceiptNotObject | Receipt(capturedAt: DateField)

  /** A row of the manifest, as far as dates are concerned. */
  datatype Row = RowNotObject | Row(hardened: bool, capabilitiesAreObject: bool, verifiedAt: DateField,
                                    receipt: ReceiptField)

  /** `rows` is `None` when the field is not a list. */
  datatype Manifest = Manifest(updated: DateField, rows: Option<seq<Row>>) {
    function RowList(): seq<Row> {
      rows.GetOr([])
    }
  }

  datatype Source = Updated | VerifiedAt(row: nat) | CapturedAt(row: nat)
  datatype Verdict = Invalid | Future | Stale
  datatype Finding = Finding(source: Source, verdict: Verdict)
  datatype Claim = Claim(source: Source, ms: int)

  // The age checks.

  /** The check every dated claim goes through; `Missing` is judged by the caller. */
  function Judge(source: Source, date: DateField, now: int): seq<Finding> {
    match date
    case Missing => []
    case Malformed => [Finding(source, Invalid)]
    case At(ms) =>
      if ms > now then [Finding(source, Future)]
      else if now - ms > MAX_AGE_MS then [Finding(source, Stale)]
      else []
  }

  /** The dated findings of one row: rows that are not objects, or whose capabilities are not, are left early. */
  function JudgeRow(i: nat, row: Row, now: int): seq<Finding> {
    match row
    case RowNotObject => []
    case Row(hardened, capabilitiesAreObject, verifiedAt, receipt) =>
      if !capabilitiesAreObject then []
      else
        (if verifiedAt.Missing? && hardened then [Finding(VerifiedAt(i), Invalid)]
          else Judge(VerifiedAt(i), verifiedAt, now))
        + (if !receipt.Receipt? then []
           else if receipt.capturedAt.Missing? then [Finding(CapturedAt(i), Invalid)]
           else Judge(CapturedAt(i), receipt.capturedAt, now))
  }

  predicate ClaimIn(source: Source, date: DateField, claim: Claim) {
    date == At(claim.ms) && claim.source == source
  }

  predicate RowClaim(i: nat, row: Row, claim: Claim) {
    row.Row? && (ClaimIn(VerifiedAt(i), row.verifiedAt, claim)
                 || (row.receipt.Receipt? && ClaimIn(CapturedAt(i), row.receipt.capturedAt, claim)))
  }

  /** `claim` is a dated claim of the manifest. */
  ghost predicate Dated(m: Manifest, claim: Claim) {
    ClaimIn(Updated, m.updated, claim) || exists i: nat :: i < |m.RowList()| && RowClaim(i, m.RowList()[i], claim)
  }

  /** `claim` is a dated claim the age checks look at. */
  ghost predicate Checked(m: Manifest, claim: Claim) {
    ClaimIn(Updated, m.updated, claim) || exists i: nat :: i < |m.RowList()| && ReachedClaim(i, m.RowList()[i], claim)
  }

  predicate ReachedClaim(i: nat, row: Row, claim: Claim) {
    RowClaim(i, row, claim) && row.capabilitiesAreObject
  }

  predicate Expired(claim: Claim, now: int) {
    now > claim.ms + MAX_AGE_MS
  }

  ghost predicate ReportsStale(findings: seq<Finding>) {
    exists f <- findings :: f.verdict == Stale
  }

  /** Some claim the checks reach in the first `n` rows, or the manifest's own date, is past its budget. */
  ghost predicate StaleWithin(m: Manifest, n: nat, now: int)
    requires n <= |m.RowList()|
  {
    || (m.updated.At? && Expired(Claim(Updated, m.updated.ms), now))
    || exists i: nat :: i < n && RowStale(i, m.RowList()[i], now)
  }

  ghost predicate RowStale(i: nat, row: Row, now: int) {
    exists claim :: ReachedClaim(i, row, claim) && Expired(claim, now)
  }

  /** The dated findings of `checkFleetBotHardeningParity`: one of them is stale exactly when some checked
      claim is past its budget. */
  method CheckAges(m: Manifest, now: int) returns (findings: seq<Finding>)
    ensures ReportsStale(findings) <==> StaleAt(m, now)
  {
    findings := if m.updated.Missing? then [Finding(Updated, Invalid)] else Judge(Updated, m.updated, now);
    assert ReportsStale(findings) <==> StaleWithin(m, 0, now) by { JudgeIsStale(Updated, m.updated, now); }
    for i := 0 to |m.RowList()|
      invariant ReportsStale(findings) <==> StaleWithin(m, i, now)
    {
      var found := JudgeRow(i, m.RowList()[i], now);
      JudgeRowIsStale(i, m.RowList()[i], now);
      ReportsEither(findings, found);
      findings := findings + found;
    }
    StaleWithinAll(m, now);
  }

  lemma ReportsEither(a: seq<Finding>, b: seq<Finding>)
    ensures ReportsStale(a + b) <==> ReportsStale(a) || ReportsStale(b)
  {
    if f :| f in a && f.verdict == Stale { assert f in a + b; }
    if f :| f in b && f.verdict == Stale { assert f in a + b; }
  }

  lemma JudgeIsStale(source: Source, date: DateField, now: int)
    ensures ReportsStale(Judge(source, date, now)) <==> date.At? && Expired(Claim(source, date.ms), now)
  {
    if date.At? && Expired(Claim(source, date.ms), now) {
      assert Finding(source, Stale) in Judge(source, date, now);
    }
  }

  lemma JudgeRowIsStale(i: nat, row: Row, now: int)
    ensures ReportsStale(JudgeRow(i, row, now)) <==> RowStale(i, row, now)
  {
    if row.Row? && row.capabilitiesAreObject {
      JudgeIsStale(VerifiedAt(i), row.verifiedAt, now);
      if row.verifiedAt.At? { assert ReachedClaim(i, row, Claim(VerifiedAt(i), row.verifiedAt.ms)); }
      var first := if row.verifiedAt.Missing? && row.hardened then [Finding(VerifiedAt(i), Invalid)]
        else Judge(VerifiedAt(i), row.verifiedAt, now);
      if row.receipt.Receipt? {
        var captured := row.receipt.capturedAt;
        JudgeIsStale(CapturedAt(i), captured, now);
        if captured.At? { assert ReachedClaim(i, row, Claim(CapturedAt(i), captured.ms)); }
        ReportsEither(first, if captured.Missing? then [Finding(CapturedAt(i), Invalid)]
          else Judge(CapturedAt(i), captured, now));
      } else {
        ReportsEither(first, []);
      }
    }
  }

  lemma StaleWithinAll(m: Manifest, now: int)
    ensures StaleWithin(m, |m.RowList()|, now) <==> StaleAt(m, now)
  {
    if claim :| Checked(m, claim) && Expired(claim, now) {
      if !ClaimIn(Updated, m.updated, claim) {
        var i: nat :| i < |m.RowList()| && ReachedClaim(i, m.RowList()[i], claim);
        assert RowStale(i, m.RowList()[i], now);
      }
    }
    if StaleWithin(m, |m.RowList()|, now) {
      if m.updated.At? && Expired(Claim(Updated, m.updated.ms), now) {
        assert Checked(m, Claim(Updated, m.updated.ms));
      } else {
        var i: nat :| i < |m.RowList()| && RowStale(i, m.RowList()[i], now);
        var claim :| ReachedClaim(i, m.RowList()[i], claim) && Expired(claim, now);
        assert Checked(m, claim);
      }
    }
  }

  // The predictor.

  datatype Prediction = Prediction(source: Source, failsFrom: int, lastGoodDay: int, daysRemaining: int)

  function Note(source: Source, date: DateField): seq<Claim> {
    if date.At? then [Claim(source, date.ms)] else []
  }

  function NoteRow(i: nat, row: Row): seq<Claim> {
    if row.RowNotObject? then []
    else
      Note(VerifiedAt(i), row.verifiedAt)
      + (if row.receipt.Receipt? then Note(CapturedAt(i), row.receipt.capturedAt) else [])
  }

  /** `earliest` is a first-expiring dated claim of the manifest. */
  ghost predicate Earliest(m: Manifest, earliest: Claim) {
    Dated(m, earliest) && forall claim :: Dated(m, claim) ==> earliest.ms <= claim.ms
  }

  method CollectDates(m: Manifest) returns (dated: seq<Claim>)
    ensures forall claim :: claim in dated <==> Dated(m, claim)
  {
    dated := Note(Updated, m.updated);
    var rows := m.RowList();
    for i := 0 to |rows|
      invariant forall claim :: claim in dated <==>
        ClaimIn(Updated, m.updated, claim) || exists j: nat :: j < i && RowClaim(j, rows[j], claim)
    {
      dated := dated + NoteRow(i, rows[i]);
    }
  }

  /** `fleetBotHardeningParityExpiry`. */
  method PredictExpiry(m: Manifest, now: int) returns (p: Option<Prediction>)
    ensures p.None? <==> forall claim :: !Dated(m, claim)
    ensures p.Some? ==> exists claim :: Earliest(m, claim) && p.value == PredictionFor(claim, now)
  {
    var dated := CollectDates(m);
    if dated == [] { return None; }
    var first := dated[0];
    assert dated[0] in dated;
    for i := 1 to |dated|
      invariant first in dated && forall j | 0 <= j < i :: first.ms <= dated[j].ms
    {
      if dated[i].ms < first.ms {
        first := dated[i];
      }
    }
    assert Earliest(m, first);
    p := Some(PredictionFor(first, now));
  }

  function PredictionFor(first: Claim, now: int): Prediction {
    var expiresAt := first.ms + MAX_AGE_MS;
    Prediction(first.source, expiresAt, (expiresAt - MS_PER_DAY) / MS_PER_DAY, (expiresAt - now) / MS_PER_DAY)
  }

  // What the prediction promises.

  /** Some age check reports a stale claim at `now`. */
  ghost predicate StaleAt(m: Manifest, now: int) {
    exists claim :: Checked(m, claim) && Expired(claim, now)
  }

  /** The prediction agrees with the age checks at every instant. */
  ghost predicate Exact(m: Manifest, failsFrom: int) {
    forall now :: StaleAt(m, now) <==> now > failsFrom
  }

  /** Exactly when the predictor is right: at every instant the age checks are stale if and only if the
      prediction has passed, provided - and only provided - some checked claim is as early as the
      earliest dated claim. */
  lemma PredictionIsExactIff(m: Manifest, earliest: Claim)
    requires Earliest(m, earliest)
    ensures Exact(m, earliest.ms + MAX_AGE_MS) <==> exists claim :: Checked(m, claim) && claim.ms == earliest.ms
  {
    var failsFrom := earliest.ms + MAX_AGE_MS;
    forall claim | Checked(m, claim) ensures Dated(m, claim) { }
    if claim :| Checked(m, claim) && claim.ms == earliest.ms {
      forall now ensures StaleAt(m, now) <==> now > failsFrom {
        if now > failsFrom { assert Expired(claim, now); }
      }
    } else {
      assert !StaleAt(m, failsFrom + 1);
    }
  }

  /** Every row that is an object has an object of capabilities: the shape the age checks demand before they
      look at a row's dates. */
  predicate RowsReachable(m: Manifest) {
    forall row <- m.RowList() :: row.Row? ==> row.capabilitiesAreObject
  }

  /** On such a manifest the prediction is exact. */
  lemma PredictionIsExact(m: Manifest, earliest: Claim)
    requires Earliest(m, earliest) && RowsReachable(m)
    ensures Exact(m, earliest.ms + MAX_AGE_MS)
  {
    assert Checked(m, earliest);
    PredictionIsExactIff(m, earliest);
  }

  /** On others it need not be: the age checks leave a row whose capabilities are malformed before they
      read its dates, and the predictor reads them. */
  lemma UnreachableRowMisleads()
    ensures var m := Manifest(At(MS_PER_DAY), Some([Row(true, false, At(0), NoReceipt)]));
      Earliest(m, Claim(VerifiedAt(0), 0)) && !Exact(m, MAX_AGE_MS)
  {
    var rows := [Row(true, false, At(0), NoReceipt)];
    var m := Manifest(At(MS_PER_DAY), Some(rows));
    var first := Claim(VerifiedAt(0), 0);
    assert m.RowList() == rows && RowClaim(0, rows[0], first);
    assert Dated(m, first);
    PredictionIsExactIff(m, first);
  }

  /** Whole days run out exactly when the prediction passes. */
  lemma DaysRunOut(first: Claim, now: int)
    ensures PredictionFor(first, now).daysRemaining < 0 <==> now > PredictionFor(first, now).failsFrom
  {
  }

  predicate InDay(t: int, day: int) {
    t / MS_PER_DAY == day
  }

  /** Every instant of `day` is inside the budget. */
  ghost predicate WhollyInside(day: int, failsFrom: int) {
    forall t :: InDay(t, day) ==> t <= failsFrom
  }

  ghost predicate LastWhollyInside(day: int, failsFrom: int) {
    WhollyInside(day, failsFrom) && forall later :: later > day ==> !WhollyInside(later, failsFrom)
  }

  lemma InsideByItsLastInstant(day: int, failsFrom: int)
    ensures WhollyInside(day, failsFrom) <==> (day + 1) * MS_PER_DAY - 1 <= failsFrom
  {
    var last := (day + 1) * MS_PER_DAY - 1;
    assert InDay(last, day);
  }

  /** `lastGoodDay` is the last day wholly inside the budget, except when the budget ends on the very last
      millisecond of a day: then the day after it is still good. */
  lemma LastGoodDayIff(first: Claim, now: int)
    ensures var p := PredictionFor(first, now);
      LastWhollyInside(p.lastGoodDay, p.failsFrom) <==> (first.ms + 1) % MS_PER_DAY != 0
  {
    var p := PredictionFor(first, now);
    var day, e := p.lastGoodDay, p.failsFrom;
    assert day == e / MS_PER_DAY - 1;
    assert (e + 1) % MS_PER_DAY == (first.ms + 1) % MS_PER_DAY;
    InsideByItsLastInstant(day, e);
    InsideByItsLastInstant(day + 1, e);
    forall later | later > day + 1 ensures !WhollyInside(later, e) {
      InsideByItsLastInstant(later, e);
    }
    forall later | later > day && (first.ms + 1) % MS_PER_DAY != 0 ensures !WhollyInside(later, e) {
      InsideByItsLastInstant(later, e);
    }
  }

  /** The exception happens: a claim made on the last millisecond of a day. */
  lemma LastGoodDayMisses(source: Source)
    ensures var p := PredictionFor(Claim(source, MS_PER_DAY - 1), MS_PER_DAY);
      WhollyInside(p.lastGoodDay + 1, p.failsFrom) && !LastWhollyInside(p.lastGoodDay, p.failsFrom)
  {
    var p := PredictionFor(Claim(source, MS_PER_DAY - 1), MS_PER_DAY);
    LastGoodDayIff(Claim(source, MS_PER_DAY - 1), MS_PER_DAY);
    InsideByItsLastInstant(p.lastGoodDay + 1, p.failsFrom);
  }

  /** A date-only claim is midnight, so its last good day is never off. */
  lemma LastGoodDayOfDate(first: Claim, now: int)
    requires first.ms % MS_PER_DAY == 0
    ensures var p := PredictionFor(first, now); LastWhollyInside(p.lastGoodDay, p.failsFrom)
  {
    assert (first.ms + 1) % MS_PER_DAY == 1;
    LastGoodDayIff(first, now);
  }
}
