/** The record path of `scripts/capability-obligation-attest.ts`: any number of recording runs share a
    directory and a database, and power may fail between any two steps. A receipt is written, flushed,
    linked no-clobber and made durable strictly before its attestation row is inserted. */
module Attest {
  import opened CrashDisk

  type RunId = nat
  type Json = string

  datatype FileName = ReceiptFile(path: string) | TempFile(run: RunId)

  type Files = Disk<FileName, Json>

  /** The next operation of a run. */
  datatype Pc =
    | OpenTemp | WriteTemp | FsyncTemp | LinkReceipt | UnlinkTemp(linked: bool)
    | FsyncDirectory | ReadBack | InsertRow | Done

  datatype Run = Run(nonce: string, path: string, receipt: Json, pc: Pc)

  /** An attestation row, with the run that inserted it and the receipt that run wrote. */
  datatype Row = Row(run: RunId, nonce: string, path: string, receipt: Json)

  datatype State = State(disk: Files, rows: set<Row>, runs: map<RunId, Run>) {
    function To(r: RunId, pc: Pc): State
      requires r in runs
    {
      this.(runs := runs[r := runs[r].(pc := pc)])
    }
  }

  const EMPTY := State(Disk(map[], [], map[], {}, 0), {}, map[])

  datatype Event =
    | Begin(r: RunId, nonce: string, path: string, receipt: Json)
    | Step(r: RunId, fault: bool)
    | PowerLoss(keep: set<nat>, garbage: map<Inode, Json>)

  predicate NonceTaken(rows: set<Row>, nonce: string) {
    exists row <- rows :: row.nonce == nonce
  }

  /** `writeReceiptDurably`, then the insert of `attest`. A step whose system call fails abandons the run;
      so does a link that finds a receipt, and an insert whose nonce is taken. */
  function Advance(s: State, r: RunId, fault: bool): State
    requires r in s.runs
  {
    var run, d := s.runs[r], s.disk;
    var live := d.Live();
    if fault then s.To(r, Done)
    else
      match run.pc
      case OpenTemp =>
        if TempFile(r) in live then s.To(r, Done) else s.(disk := d.Create(TempFile(r), "")).To(r, WriteTemp)
      case WriteTemp =>
        if TempFile(r) !in live then s.To(r, Done)
          else s.(disk := d.Overwrite(TempFile(r), run.receipt)).To(r, FsyncTemp)
      case FsyncTemp =>
        if TempFile(r) !in live then s.To(r, Done) else s.(disk := d.FsyncFile(TempFile(r))).To(r, LinkReceipt)
      case LinkReceipt =>
        if TempFile(r) !in live then s.To(r, Done)
        else if ReceiptFile(run.path) in live then s.To(r, UnlinkTemp(false))
        else s.(disk := d.Link(TempFile(r), ReceiptFile(run.path))).To(r, UnlinkTemp(true))
      case UnlinkTemp(linked) =>
        s.(disk := d.Unlink(TempFile(r))).To(r, if linked then FsyncDirectory else Done)
      case FsyncDirectory => s.(disk := d.FsyncDir()).To(r, ReadBack)
      case ReadBack =>
        if ReceiptFile(run.path) in live && live[ReceiptFile(run.path)] in d.data
          && d.data[live[ReceiptFile(run.path)]] == run.receipt
        then s.To(r, InsertRow) else s.To(r, Done)
      case InsertRow =>
        if NonceTaken(s.rows, run.nonce) then s.To(r, Done)
        else s.(rows := s.rows + {Row(r, run.nonce, run.path, run.receipt)}).To(r, Done)
      case Done => s
  }

  function Next(s: State, e: Event): State {
    match e
    case Begin(r, nonce, path, receipt) =>
      if r in s.runs then s else s.(runs := s.runs[r := Run(nonce, path, receipt, OpenTemp)])
    case Step(r, fault) => if r in s.runs then Advance(s, r, fault) else s
    case PowerLoss(keep, garbage) =>
      s.(disk := s.disk.Crash(keep, garbage), runs := map r <- s.runs :: s.runs[r].(pc := Done))
  }

  function History(events: seq<Event>): State {
    if events == [] then EMPTY else Next(History(events[..|events| - 1]), events[|events| - 1])
  }

  // Invariants.

  /** The receipt at `path` is durable: no crash can change or lose it. */
  ghost predicate Durable(d: Files, path: string, receipt: Json) {
    var n := ReceiptFile(path);
    && n in d.dir && d.dir[n] in d.synced && d.dir[n] in d.data && d.data[d.dir[n]] == receipt
    && forall op <- d.pending :: !Touches(op, n)
  }

  /** Name `n` leads to flushed data `receipt`, though its directory entry may not be durable. */
  ghost predicate Flushed(d: Files, n: FileName, receipt: Json) {
    n in d.Live() && d.Live()[n] in d.synced && d.Live()[n] in d.data && d.data[d.Live()[n]] == receipt
  }

  /** Inode `i` is bound to the temp file of `r` and to nothing else, now or after a crash. */
  ghost predicate Private(d: Files, r: RunId, i: Inode) {
    && (forall n <- d.dir :: d.dir[n] == i ==> n == TempFile(r))
    && (forall op <- d.pending :: op.Bind? && op.inode == i ==> op.name == TempFile(r))
  }

  ghost predicate TempReady(d: Files, r: RunId) {
    TempFile(r) in d.Live() && Private(d, r, d.Live()[TempFile(r)])
  }

  ghost predicate RunOk(d: Files, r: RunId, run: Run) {
    match run.pc
    case WriteTemp => TempReady(d, r)
    case FsyncTemp => TempReady(d, r) && d.Live()[TempFile(r)] in d.data && d.data[d.Live()[TempFile(r)]] == run.receipt
    case LinkReceipt => TempReady(d, r) && Flushed(d, TempFile(r), run.receipt)
    case UnlinkTemp(linked) => linked ==> Flushed(d, ReceiptFile(run.path), run.receipt)
    case FsyncDirectory => Flushed(d, ReceiptFile(run.path), run.receipt)
    case ReadBack => Durable(d, run.path, run.receipt)
    case InsertRow => Durable(d, run.path, run.receipt)
    case _ => true
  }

  /** The run has linked its receipt and not inserted its row. */
  predicate Linked(run: Run) {
    run.pc == UnlinkTemp(true) || run.pc.FsyncDirectory? || run.pc.ReadBack? || run.pc.InsertRow?
  }

  ghost predicate DiskOk(d: Files) {
    d.WellFormed() && forall op <- d.pending :: !op.Move?
  }

  ghost predicate RowsOk(s: State) {
    forall row <- s.rows :: row.run in s.runs && s.runs[row.run].pc.Done? && Durable(s.disk, row.path, row.receipt)
  }

  ghost predicate RunsOk(s: State) {
    forall r <- s.runs :: RunOk(s.disk, r, s.runs[r])
  }

  /** Every receipt path belongs to at most one row or one run on its way to a row. */
  ghost predicate PathsOwned(s: State) {
    && (forall a <- s.rows, b <- s.rows :: a.path == b.path ==> a == b)
    && (forall a <- s.rows, r <- s.runs :: Linked(s.runs[r]) ==> a.path != s.runs[r].path)
    && (forall q <- s.runs, r <- s.runs :: q != r && Linked(s.runs[q]) && Linked(s.runs[r]) ==>
      s.runs[q].path != s.runs[r].path)
  }

  ghost predicate Good(s: State) {
    DiskOk(s.disk) && RowsOk(s) && RunsOk(s) && PathsOwned(s)
  }

  // What a step of one run leaves alone.

  /** `e` still shows every receipt of `d`, with its bytes, and every durable receipt is still durable. */
  ghost predicate ReceiptsKept(d: Files, e: Files) {
    && (forall path, receipt :: Durable(d, path, receipt) ==> Durable(e, path, receipt))
    && (forall path, receipt :: Flushed(d, ReceiptFile(path), receipt) ==> Flushed(e, ReceiptFile(path), receipt))
  }

  /** `e` leaves the temp files of runs other than `r` as they were. */
  ghost predicate TempsKept(d: Files, e: Files, r: RunId) {
    forall q | q != r && TempReady(d, q) ::
      && TempReady(e, q) && e.Live()[TempFile(q)] == d.Live()[TempFile(q)]
      && SameFile(d, e, d.Live()[TempFile(q)])
  }

  predicate SameFile(d: Files, e: Files, i: Inode) {
    (i in d.data ==> i in e.data && e.data[i] == d.data[i]) && (i in d.synced ==> i in e.synced)
  }

  ghost predicate Harmless(d: Files, e: Files, r: RunId) {
    DiskOk(e) && ReceiptsKept(d, e) && TempsKept(d, e, r)
  }

  lemma OthersStayOk(d: Files, e: Files, r: RunId, q: RunId, run: Run)
    requires Harmless(d, e, r) && q != r && RunOk(d, q, run)
    ensures RunOk(e, q, run)
  {
    if run.pc.FsyncTemp? || run.pc.LinkReceipt? { assert TempReady(d, q); }
  }

  /** A durable receipt is what a running process sees. */
  lemma DurableIsLive(d: Files, path: string, receipt: Json)
    requires Durable(d, path, receipt)
    ensures Flushed(d, ReceiptFile(path), receipt) && d.Live()[ReceiptFile(path)] == d.dir[ReceiptFile(path)]
  {
    UntouchedStays(d.dir, d.pending, ReceiptFile(path));
  }

  /** A private inode is behind no receipt. */
  lemma PrivateIsNoReceipt(d: Files, r: RunId, i: Inode, n: FileName)
    requires DiskOk(d) && Private(d, r, i) && n in d.Live() && d.Live()[n] == i
    ensures n == TempFile(r)
  {
    BindingsHaveASource(d.dir, d.pending, n);
  }

  lemma CreateIsHarmless(d: Files, r: RunId)
    requires DiskOk(d) && TempFile(r) !in d.Live()
    ensures var e := d.Create(TempFile(r), ""); Harmless(d, e, r) && TempReady(e, r)
  {
    var e := d.Create(TempFile(r), "");
    AppendOp(d.dir, d.pending, Bind(TempFile(r), d.next));
    LiveHasData(d);
  }

  lemma OverwriteIsHarmless(d: Files, r: RunId, receipt: Json)
    requires DiskOk(d) && TempReady(d, r)
    ensures var e := d.Overwrite(TempFile(r), receipt);
      Harmless(d, e, r) && RunOk(e, r, Run("", "", receipt, FsyncTemp))
  {
    var e := d.Overwrite(TempFile(r), receipt);
    var i := d.Live()[TempFile(r)];
    LiveHasData(d);
    assert e.Live() == d.Live();
    forall path, other | Durable(d, path, other) ensures Durable(e, path, other) {
      DurableIsLive(d, path, other);
      if d.dir[ReceiptFile(path)] == i { PrivateIsNoReceipt(d, r, i, ReceiptFile(path)); }
    }
    forall path, other | Flushed(d, ReceiptFile(path), other) ensures Flushed(e, ReceiptFile(path), other) {
      if d.Live()[ReceiptFile(path)] == i { PrivateIsNoReceipt(d, r, i, ReceiptFile(path)); }
    }
    forall q | q != r && TempReady(d, q) ensures d.Live()[TempFile(q)] != i {
      if d.Live()[TempFile(q)] == i { PrivateIsNoReceipt(d, r, i, TempFile(q)); }
    }
  }

  lemma FsyncIsHarmless(d: Files, r: RunId)
    requires DiskOk(d) && TempReady(d, r)
    ensures var e := d.FsyncFile(TempFile(r)); Harmless(d, e, r) && TempReady(e, r) && e.Live() == d.Live()
  {
    LiveHasData(d);
  }

  lemma LinkIsHarmless(d: Files, r: RunId, path: string, receipt: Json)
    requires DiskOk(d) && TempReady(d, r) && Flushed(d, TempFile(r), receipt) && ReceiptFile(path) !in d.Live()
    ensures var e := d.Link(TempFile(r), ReceiptFile(path)); Harmless(d, e, r) && Flushed(e, ReceiptFile(path), receipt)
  {
    var e := d.Link(TempFile(r), ReceiptFile(path));
    AppendOp(d.dir, d.pending, Bind(ReceiptFile(path), d.Live()[TempFile(r)]));
    forall p, other | Durable(d, p, other) ensures Durable(e, p, other) { DurableIsLive(d, p, other); }
    forall q | q != r && TempReady(d, q) ensures d.Live()[TempFile(q)] != d.Live()[TempFile(r)] {
      if d.Live()[TempFile(q)] == d.Live()[TempFile(r)] {
        PrivateIsNoReceipt(d, r, d.Live()[TempFile(r)], TempFile(q));
      }
    }
  }

  lemma UnlinkIsHarmless(d: Files, r: RunId)
    requires DiskOk(d)
    ensures Harmless(d, d.Unlink(TempFile(r)), r)
  {
    if TempFile(r) in d.Live() { AppendOp(d.dir, d.pending, Unbind(TempFile(r))); }
  }

  lemma FsyncDirIsHarmless(d: Files, r: RunId)
    requires DiskOk(d)
    ensures Harmless(d, d.FsyncDir(), r)
    ensures forall path, receipt :: Flushed(d, ReceiptFile(path), receipt) ==> Durable(d.FsyncDir(), path, receipt)
  {
    var e := d.FsyncDir();
    LiveHasData(d);
    forall path, receipt | Durable(d, path, receipt) ensures Durable(e, path, receipt) {
      DurableIsLive(d, path, receipt);
    }
    forall q | TempReady(d, q) ensures TempReady(e, q) {
      var i := d.Live()[TempFile(q)];
      forall n <- e.dir | e.dir[n] == i ensures n == TempFile(q) { PrivateIsNoReceipt(d, q, i, n); }
    }
  }

  lemma NothingIsHarmless(d: Files, r: RunId)
    requires DiskOk(d)
    ensures Harmless(d, d, r)
  {
  }

  // Steps keep the invariants.

  /** A step of a run harms no receipt and no other run, and brings the run where it should be. */
  lemma AdvanceIsHarmless(s: State, r: RunId, fault: bool)
    requires r in s.runs && DiskOk(s.disk) && RunOk(s.disk, r, s.runs[r])
    ensures var t := Advance(s, r, fault);
      && t.runs == s.runs[r := s.runs[r].(pc := t.runs[r].pc)]
      && Harmless(s.disk, t.disk, r) && RunOk(t.disk, r, t.runs[r])
  {
    var d, run := s.disk, s.runs[r];
    NothingIsHarmless(d, r);
    if !fault {
      match run.pc
      case OpenTemp => if TempFile(r) !in d.Live() { CreateIsHarmless(d, r); }
      case WriteTemp => OverwriteIsHarmless(d, r, run.receipt);
      case FsyncTemp => FsyncIsHarmless(d, r);
      case LinkReceipt =>
        if ReceiptFile(run.path) !in d.Live() { LinkIsHarmless(d, r, run.path, run.receipt); }
      case UnlinkTemp(_) => UnlinkIsHarmless(d, r);
      case FsyncDirectory => FsyncDirIsHarmless(d, r);
      case ReadBack =>
      case InsertRow =>
      case Done =>
    }
  }

  /** A receipt path that is free belongs to no row and to no run that has linked its receipt. */
  lemma FreePathIsUnowned(s: State, path: string)
    requires DiskOk(s.disk) && RowsOk(s) && RunsOk(s) && ReceiptFile(path) !in s.disk.Live()
    ensures forall row <- s.rows :: row.path != path
    ensures forall q <- s.runs :: Linked(s.runs[q]) ==> s.runs[q].path != path
  {
    forall row <- s.rows ensures row.path != path { DurableIsLive(s.disk, row.path, row.receipt); }
    forall q <- s.runs | Linked(s.runs[q]) ensures s.runs[q].path != path {
      assert RunOk(s.disk, q, s.runs[q]);
      if s.runs[q].pc.ReadBack? || s.runs[q].pc.InsertRow? {
        DurableIsLive(s.disk, s.runs[q].path, s.runs[q].receipt);
      }
    }
  }

  /** How a step of `r` changes the claims on receipt paths. */
  lemma AdvanceClaims(s: State, r: RunId, fault: bool)
    requires r in s.runs
    ensures var t := Advance(s, r, fault); var run := s.runs[r];
      && t.runs == s.runs[r := run.(pc := t.runs[r].pc)]
      && (Linked(t.runs[r]) && !Linked(run) ==> ReceiptFile(run.path) !in s.disk.Live() && t.rows == s.rows)
      && (t.rows != s.rows ==>
            Linked(run) && !Linked(t.runs[r]) && t.rows == s.rows + {Row(r, run.nonce, run.path, run.receipt)})
  {
  }

  lemma AdvanceOwns(s: State, r: RunId, fault: bool)
    requires Good(s) && r in s.runs
    ensures PathsOwned(Advance(s, r, fault))
  {
    AdvanceClaims(s, r, fault);
    var t := Advance(s, r, fault);
    if Linked(t.runs[r]) && !Linked(s.runs[r]) { FreePathIsUnowned(s, s.runs[r].path); }
    OwnedAfter(s, t, r);
  }

  lemma OwnedAfter(s: State, t: State, r: RunId)
    requires PathsOwned(s) && r in s.runs && r in t.runs && t.runs == s.runs[r := s.runs[r].(pc := t.runs[r].pc)]
    requires Linked(t.runs[r]) && !Linked(s.runs[r]) ==> (
      && t.rows == s.rows && (forall row <- s.rows :: row.path != s.runs[r].path)
      && (forall q <- s.runs :: Linked(s.runs[q]) ==> s.runs[q].path != s.runs[r].path))
    requires t.rows != s.rows ==> (
      && Linked(s.runs[r]) && !Linked(t.runs[r])
      && t.rows == s.rows + {Row(r, s.runs[r].nonce, s.runs[r].path, s.runs[r].receipt)})
    ensures PathsOwned(t)
  {
  }

  lemma AdvanceIsGood(s: State, r: RunId, fault: bool)
    requires Good(s) && r in s.runs
    ensures Good(Advance(s, r, fault))
  {
    var t := Advance(s, r, fault);
    assert RunOk(s.disk, r, s.runs[r]);
    AdvanceIsHarmless(s, r, fault);
    AdvanceOwns(s, r, fault);
    forall q <- t.runs ensures RunOk(t.disk, q, t.runs[q]) {
      if q != r {
        assert RunOk(s.disk, q, s.runs[q]);
        OthersStayOk(s.disk, t.disk, r, q, s.runs[q]);
      }
    }
    forall row <- t.rows
      ensures row.run in t.runs && t.runs[row.run].pc.Done? && Durable(t.disk, row.path, row.receipt)
    {
      if row !in s.rows {
        assert s.runs[r].pc.InsertRow? && row == Row(r, s.runs[r].nonce, s.runs[r].path, s.runs[r].receipt);
      }
    }
  }

  lemma CrashKeepsDurable(d: Files, keep: set<nat>, garbage: map<Inode, Json>, path: string, receipt: Json)
    requires Durable(d, path, receipt)
    ensures Durable(d.Crash(keep, garbage), path, receipt)
  {
    UntouchedSurvives(d.dir, d.pending, keep, ReceiptFile(path));
  }

  lemma NextIsGood(s: State, e: Event)
    requires Good(s)
    ensures Good(Next(s, e))
  {
    match e
    case Begin(_, _, _, _) =>
    case Step(r, fault) => if r in s.runs { AdvanceIsGood(s, r, fault); }
    case PowerLoss(keep, garbage) =>
      CrashIsWellFormed(s.disk, keep, garbage);
      forall row <- s.rows ensures Durable(s.disk.Crash(keep, garbage), row.path, row.receipt) {
        CrashKeepsDurable(s.disk, keep, garbage, row.path, row.receipt);
      }
  }

  lemma {:induction false} HistoryIsGood(events: seq<Event>)
    ensures Good(History(events))
  {
    if events != [] {
      var n := |events| - 1;
      HistoryIsGood(events[..n]);
      NextIsGood(History(events[..n]), events[n]);
    }
  }

  /** Evidence before admission: at every moment of every history, with power lost at any step and any subset
      of the unflushed directory operations surviving, an attestation row implies that the receipt its run wrote
      is durable, so it is there after the next power loss too. */
  lemma EvidenceBeforeAdmission(events: seq<Event>, row: Row, keep: set<nat>, garbage: map<Inode, Json>)
    requires row in History(events).rows
    ensures Durable(History(events).disk, row.path, row.receipt)
    ensures Durable(History(events).disk.Crash(keep, garbage), row.path, row.receipt)
  {
    HistoryIsGood(events);
    CrashKeepsDurable(History(events).disk, keep, garbage, row.path, row.receipt);
  }

  /** Evidence is write-once: whatever happens later, a durable receipt keeps its bytes. */
  lemma {:induction false} DurableReceiptNeverChanges(events: seq<Event>, i: nat, path: string, receipt: Json)
    requires i <= |events| && Durable(History(events[..i]).disk, path, receipt)
    ensures Durable(History(events).disk, path, receipt)
  {
    if i == |events| {
      assert events[..i] == events;
    } else {
      var n := |events| - 1;
      assert events[..n][..i] == events[..i];
      DurableReceiptNeverChanges(events[..n], i, path, receipt);
      HistoryIsGood(events[..n]);
      NextKeepsDurable(History(events[..n]), events[n], path, receipt);
    }
  }

  lemma NextKeepsDurable(s: State, e: Event, path: string, receipt: Json)
    requires Good(s) && Durable(s.disk, path, receipt)
    ensures Durable(Next(s, e).disk, path, receipt)
  {
    match e
    case Begin(_, _, _, _) =>
    case Step(r, fault) =>
      if r in s.runs {
        assert RunOk(s.disk, r, s.runs[r]);
        AdvanceIsHarmless(s, r, fault);
      }
    case PowerLoss(keep, garbage) => CrashKeepsDurable(s.disk, keep, garbage, path, receipt);
  }

  /** A reused receipt path records nothing: in no history do two rows share a receipt path, nor does a run
      on its way to a row share one with a row, so every receipt is the evidence of at most one admission. */
  lemma ReusedPathRecordsNothing(events: seq<Event>, a: Row, b: Row)
    requires a in History(events).rows && b in History(events).rows && a.path == b.path
    ensures a == b
  {
    HistoryIsGood(events);
  }

  /** A run that reaches its link on an occupied path gets no further, whether or not the receipt there has a row:
      it removes its temp file and ends without a row, and every receipt is kept as it was. */
  lemma OccupiedPathEndsTheRun(events: seq<Event>, r: RunId)
    requires var s := History(events);
      r in s.runs && s.runs[r].pc.LinkReceipt? && ReceiptFile(s.runs[r].path) in s.disk.Live()
    ensures var s := Advance(History(events), r, false); var t := Advance(s, r, false);
      && s.runs[r].pc == UnlinkTemp(false) && t.runs[r].pc == Done && t.rows == History(events).rows
      && ReceiptsKept(History(events).disk, t.disk) && TempFile(r) !in t.disk.Live()
      && ReceiptFile(s.runs[r].path) in t.disk.Live()
      && t.disk.Live()[ReceiptFile(s.runs[r].path)] == History(events).disk.Live()[ReceiptFile(s.runs[r].path)]
  {
    HistoryIsGood(events);
    var s := History(events);
    assert RunOk(s.disk, r, s.runs[r]);
    var u := Advance(s, r, false);
    UnlinkIsHarmless(u.disk, r);
    AppendOp(u.disk.dir, u.disk.pending, Unbind(TempFile(r)));
  }

  // The record path, uninterrupted.

  class Recorder {
    var disk: Files
    var rows: set<Row>

    constructor (d: Files)
      ensures disk == d && rows == {}
    {
      disk, rows := d, {};
    }

    /** `writeReceiptDurably`: on a free path the receipt ends up durable; on an occupied one nothing changes
        but the temp file that comes and goes. Receipts already there are kept either way. */
    method WriteReceiptDurably(r: RunId, path: string, receipt: Json) returns (ok: bool)
      requires DiskOk(disk) && TempFile(r) !in disk.Live()
      modifies this`disk
      ensures DiskOk(disk) && ReceiptsKept(old(disk), disk)
      ensures ok <==> ReceiptFile(path) !in old(disk).Live()
      ensures ok ==> Durable(disk, path, receipt)
    {
      ghost var d0 := disk;
      CreateIsHarmless(disk, r);
      disk := disk.Create(TempFile(r), "");
      ghost var d1 := disk;
      OverwriteIsHarmless(disk, r, receipt);
      disk := disk.Overwrite(TempFile(r), receipt);
      ghost var d2 := disk;
      FsyncIsHarmless(disk, r);
      disk := disk.FsyncFile(TempFile(r));
      ghost var d3 := disk;
      KeptThrough(d0, d1, d2);
      KeptThrough(d0, d2, d3);
      AppendOp(d0.dir, d0.pending, Bind(TempFile(r), d0.next));
      assert ReceiptFile(path) in disk.Live() <==> ReceiptFile(path) in d0.Live();
      if ReceiptFile(path) in disk.Live() {
        UnlinkIsHarmless(disk, r);
        disk := disk.Unlink(TempFile(r));
        KeptThrough(d0, d3, disk);
        return false;
      }
      LinkIsHarmless(disk, r, path, receipt);
      disk := disk.Link(TempFile(r), ReceiptFile(path));
      ghost var d4 := disk;
      UnlinkIsHarmless(disk, r);
      disk := disk.Unlink(TempFile(r));
      ghost var d5 := disk;
      FsyncDirIsHarmless(disk, r);
      disk := disk.FsyncDir();
      KeptThrough(d0, d3, d4);
      KeptThrough(d0, d4, d5);
      KeptThrough(d0, d5, disk);
      assert Flushed(d5, ReceiptFile(path), receipt);
      return true;
    }

    /** The record path: the receipt first, the row second, and no row without the receipt. */
    method Record(r: RunId, nonce: string, path: string, receipt: Json) returns (recorded: bool)
      requires DiskOk(disk) && TempFile(r) !in disk.Live()
      requires forall row <- rows :: Durable(disk, row.path, row.receipt)
      modifies this
      ensures DiskOk(disk) && forall row <- rows :: Durable(disk, row.path, row.receipt)
      ensures recorded <==> ReceiptFile(path) !in old(disk).Live() && !NonceTaken(old(rows), nonce)
      ensures rows == old(rows) + if recorded then {Row(r, nonce, path, receipt)} else {}
    {
      ghost var before := disk;
      var written := WriteReceiptDurably(r, path, receipt);
      forall row <- rows ensures Durable(disk, row.path, row.receipt) {
        assert Durable(before, row.path, row.receipt);
      }
      if !written || NonceTaken(rows, nonce) { return false; }
      rows := rows + {Row(r, nonce, path, receipt)};
      return true;
    }
  }

  lemma KeptThrough(d: Files, e: Files, f: Files)
    requires ReceiptsKept(d, e) && ReceiptsKept(e, f)
    ensures ReceiptsKept(d, f)
  {
  }
}
