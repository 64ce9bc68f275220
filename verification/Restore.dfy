/** `rehearseCoupledRestore` of `scripts/capability-obligation-as01-rehearsal.ts`: replacing a migrated
    database by its backup, on a disk that may lose power at any step, by a program that may stop at any step
    and whose unlinks may fail. */
module Restore {
  import opened Wrappers
  import opened CrashDisk

  datatype FileName = Main | Wal | Shm | Temp

  type Bytes = seq<nat>
  type Db = Disk<FileName, Bytes>
  type Directory = map<FileName, Inode>

  datatype Op = CopyToTemp | FsyncTemp | Discard(name: FileName) | FsyncDirectory | RenameTemp

  /** The restore, step by step. */
  function Step(k: nat): Op {
    match k
    case 0 => CopyToTemp
    case 1 => FsyncTemp
    case 2 => Discard(Wal)
    case 3 => Discard(Shm)
    case 4 => FsyncDirectory
    case 5 => RenameTemp
    case _ => FsyncDirectory
  }

  const STEPS: nat := 7

  /** The steps before the copy is checked. */
  const CHECKED: nat := 2

  /** One step. `copyFileSync` truncates a temp file left by an earlier run and creates it otherwise. Whatever error
      an unlink throws is swallowed; `fails` holds the names whose unlink throws although the file is there. */
  function Exec(d: Db, op: Op, backup: Bytes, fails: set<FileName>): Db {
    match op
    case CopyToTemp => if Temp in d.Live() then d.Overwrite(Temp, backup) else d.Create(Temp, backup)
    case FsyncTemp => if Temp in d.Live() then d.FsyncFile(Temp) else d
    case Discard(n) => if n in fails then d else d.Unlink(n)
    case FsyncDirectory => d.FsyncDir()
    case RenameTemp => if Temp in d.Live() then d.Rename(Temp, Main) else d
  }

  /** The disk after the first `k` steps. */
  function After(d: Db, backup: Bytes, fails: set<FileName>, k: nat): Db {
    if k == 0 then d else Exec(After(d, backup, fails, k - 1), Step(k - 1), backup, fails)
  }

  /** The disk when the copy of the backup fails its integrity check, which comes after the second step. */
  function GivenUp(d: Db, backup: Bytes, fails: set<FileName>): Db {
    Exec(After(d, backup, fails, CHECKED), Discard(Temp), backup, fails)
  }

  lemma OneStep(d: Db, backup: Bytes, fails: set<FileName>, k: nat)
    ensures After(d, backup, fails, k + 1) == Exec(After(d, backup, fails, k), Step(k), backup, fails)
  {
  }

  lemma DiscardingSteps(d: Db, e: Db, backup: Bytes, fails: set<FileName>)
    requires e == After(d, backup, fails, CHECKED)
    ensures After(d, backup, fails, 5)
      == Exec(Exec(Exec(e, Discard(Wal), backup, fails), Discard(Shm), backup, fails), FsyncDirectory, backup, fails)
  {
    OneStep(d, backup, fails, 2);
    OneStep(d, backup, fails, 3);
    OneStep(d, backup, fails, 4);
  }

  // What a process sees after a step.

  lemma CopyShows(d: Db, backup: Bytes)
    ensures var o := Exec(d, CopyToTemp, backup, {}).Live();
      o == if Temp in d.Live() then d.Live() else d.Live()[Temp := d.next]
  {
    if Temp !in d.Live() { AppendOp(d.dir, d.pending, Bind(Temp, d.next)); }
  }

  lemma UnlinkShows(d: Db, n: FileName)
    ensures d.Unlink(n).Live() == d.Live() - {n}
  {
    if n in d.Live() { AppendOp(d.dir, d.pending, Unbind(n)); }
  }

  lemma RenameShows(d: Db)
    requires Temp in d.Live()
    ensures d.Rename(Temp, Main).Live() == (d.Live() - {Temp})[Main := d.Live()[Temp]]
  {
    AppendOp(d.dir, d.pending, Move(Temp, Main, d.Live()[Temp]));
  }

  // What holds of the disk between any two steps, whoever stopped where before.

  /** The bytes of the main file in directory `o`. */
  function MainBytes(d: Db, o: Directory): Option<Bytes> {
    if Main in o && o[Main] in d.data then Some(d.data[o[Main]]) else None
  }

  predicate NoSidecars(o: Directory) {
    Wal !in o && Shm !in o
  }

  /** Directory `o` holds the un-restored main file, or the whole backup with no sidecar. */
  predicate RecoverableIn(d: Db, o: Directory, original: Option<Bytes>, backup: Bytes) {
    MainBytes(d, o) == original || (MainBytes(d, o) == Some(backup) && NoSidecars(o))
  }

  /** The data of the main file are durable, and no write to the temp file can reach them. */
  predicate MainIsSafe(d: Db, o: Directory) {
    Main in o ==> (
      && o[Main] in d.data && o[Main] in d.synced
      && (Temp in o ==> o[Temp] != o[Main])
      && (Temp in d.Live() ==> d.Live()[Temp] != o[Main]))
  }

  predicate SafeIn(d: Db, o: Directory, original: Option<Bytes>, backup: Bytes) {
    RecoverableIn(d, o, original, backup) && MainIsSafe(d, o)
  }

  /** Every directory that a power loss may leave now is recoverable, and so is the one a process sees. */
  ghost predicate Safe(d: Db, original: Option<Bytes>, backup: Bytes) {
    d.WellFormed() && forall keep :: SafeIn(d, d.Outcome(keep), original, backup)
  }

  /** A disk on which no restore has run, or has come to rest: the main file is durable and is not the temp file,
      and what is not yet flushed concerns the sidecars only (the old binary may just have made them). */
  ghost predicate Ready(d: Db) {
    && d.WellFormed()
    && (Main in d.dir ==> d.dir[Main] in d.synced)
    && (Main in d.dir && Temp in d.dir ==> d.dir[Main] != d.dir[Temp])
    && (forall op <- d.pending :: !Touches(op, Main) && !Touches(op, Temp))
  }

  lemma ReadyIsSafe(d: Db, backup: Bytes)
    requires Ready(d)
    ensures Safe(d, MainBytes(d, d.dir), backup)
  {
    UntouchedStays(d.dir, d.pending, Temp);
    forall keep ensures SafeIn(d, d.Outcome(keep), MainBytes(d, d.dir), backup) {
      UntouchedSurvives(d.dir, d.pending, keep, Main);
      UntouchedSurvives(d.dir, d.pending, keep, Temp);
    }
  }

  lemma OverwriteSafe(d: Db, original: Option<Bytes>, backup: Bytes)
    requires Safe(d, original, backup) && Temp in d.Live()
    ensures Safe(d.Overwrite(Temp, backup), original, backup)
  {
    var e := d.Overwrite(Temp, backup);
    LiveHasData(d);
    forall keep ensures SafeIn(e, e.Outcome(keep), original, backup) {
      assert SafeIn(d, d.Outcome(keep), original, backup) && e.Outcome(keep) == d.Outcome(keep);
    }
  }

  /** A new temp file beside a directory that may be left: its inode is new. */
  lemma CreatedBeside(d: Db, e: Db, o: Directory, p: Directory, original: Option<Bytes>, backup: Bytes)
    requires SafeIn(d, o, original, backup) && (p == o || p == o[Temp := d.next])
    requires (forall n <- o :: o[n] in d.data) && (forall i <- d.data :: i < d.next)
    requires e.data == d.data[d.next := backup] && e.synced == d.synced - {d.next}
    requires Temp in e.Live() && e.Live()[Temp] == d.next
    ensures SafeIn(e, p, original, backup)
  {
  }

  lemma CreateSafe(d: Db, original: Option<Bytes>, backup: Bytes)
    requires Safe(d, original, backup) && Temp !in d.Live()
    ensures Safe(d.Create(Temp, backup), original, backup)
  {
    var e := d.Create(Temp, backup);
    CopyShows(d, backup);
    forall keep ensures SafeIn(e, e.Outcome(keep), original, backup) {
      OutcomeHasData(d, keep);
      OutcomeAfter(d, e, Bind(Temp, d.next), keep);
      assert SafeIn(d, d.Outcome(keep), original, backup);
      CreatedBeside(d, e, d.Outcome(keep), e.Outcome(keep), original, backup);
    }
  }

  lemma FsyncSafe(d: Db, original: Option<Bytes>, backup: Bytes)
    requires Safe(d, original, backup) && Temp in d.Live()
    ensures Safe(d.FsyncFile(Temp), original, backup)
  {
    var e := d.FsyncFile(Temp);
    LiveHasData(d);
    forall keep ensures SafeIn(e, e.Outcome(keep), original, backup) {
      assert SafeIn(d, d.Outcome(keep), original, backup) && e.Outcome(keep) == d.Outcome(keep);
    }
  }

  /** Without a name other than the main file a directory is as safe as before. */
  lemma RemovedFrom(d: Db, e: Db, o: Directory, p: Directory, n: FileName, original: Option<Bytes>, backup: Bytes)
    requires SafeIn(d, o, original, backup) && n != Main && (p == o || p == o - {n})
    requires e.data == d.data && e.synced == d.synced && e.Live() == d.Live() - {n}
    ensures SafeIn(e, p, original, backup)
  {
  }

  lemma UnlinkSafe(d: Db, original: Option<Bytes>, backup: Bytes, n: FileName)
    requires Safe(d, original, backup) && n != Main
    ensures Safe(d.Unlink(n), original, backup)
  {
    var e := d.Unlink(n);
    UnlinkShows(d, n);
    if n in d.Live() {
      forall keep ensures SafeIn(e, e.Outcome(keep), original, backup) {
        assert SafeIn(d, d.Outcome(keep), original, backup);
        OutcomeAfter(d, e, Unbind(n), keep);
        RemovedFrom(d, e, d.Outcome(keep), e.Outcome(keep), n, original, backup);
      }
    }
  }

  lemma FlushSafe(d: Db, original: Option<Bytes>, backup: Bytes)
    requires Safe(d, original, backup)
    ensures Safe(d.FsyncDir(), original, backup)
  {
    var e := d.FsyncDir();
    LiveHasData(d);
    var all := LiveIsOutcome(d);
    assert SafeIn(d, d.Outcome(all), original, backup);
    forall keep ensures SafeIn(e, e.Outcome(keep), original, backup) { NothingPending(e, keep); }
  }

  /** The live temp file is the whole backup. */
  predicate Copied(e: Db, backup: Bytes) {
    Temp in e.Live() && e.Live()[Temp] in e.data && e.data[e.Live()[Temp]] == backup
  }

  predicate Flushed(e: Db, backup: Bytes) {
    Copied(e, backup) && e.Live()[Temp] in e.synced
  }

  /** The flushed temp file takes the place of the main file where no sidecar is left. */
  lemma MovedOver(d: Db, e: Db, o: Directory, p: Directory, i: Inode, original: Option<Bytes>, backup: Bytes)
    requires SafeIn(d, o, original, backup) && NoSidecars(o)
    requires i in d.data && d.data[i] == backup && i in d.synced
    requires p == o || p == (o - {Temp})[Main := i]
    requires e.data == d.data && e.synced == d.synced && Temp !in e.Live()
    ensures SafeIn(e, p, original, backup)
  {
  }

  lemma RenameSafe(d: Db, original: Option<Bytes>, backup: Bytes)
    requires Safe(d, original, backup) && Flushed(d, backup) && d.pending == [] && NoSidecars(d.dir)
    ensures Safe(d.Rename(Temp, Main), original, backup)
  {
    var e, i := d.Rename(Temp, Main), d.Live()[Temp];
    RenameShows(d);
    forall keep ensures SafeIn(e, e.Outcome(keep), original, backup) {
      assert SafeIn(d, d.Outcome(keep), original, backup);
      NothingPending(d, keep);
      OutcomeAfter(d, e, Move(Temp, Main, i), keep);
      MovedOver(d, e, d.Outcome(keep), e.Outcome(keep), i, original, backup);
    }
  }

  lemma CrashSafe(d: Db, original: Option<Bytes>, backup: Bytes, keep: set<nat>, garbage: map<Inode, Bytes>)
    requires Safe(d, original, backup)
    ensures Safe(d.Crash(keep, garbage), original, backup)
    ensures RecoverableIn(d.Crash(keep, garbage), d.Crash(keep, garbage).dir, original, backup)
  {
    var c := d.Crash(keep, garbage);
    CrashIsWellFormed(d, keep, garbage);
    assert SafeIn(d, d.Outcome(keep), original, backup);
    forall more ensures SafeIn(c, c.Outcome(more), original, backup) { NothingPending(c, more); }
  }

  // The stages of one run, whichever unlinks fail.

  predicate Renamed(e: Db, backup: Bytes) {
    && Main in e.Live() && Temp !in e.Live()
    && e.Live()[Main] in e.data && e.data[e.Live()[Main]] == backup && e.Live()[Main] in e.synced
  }

  predicate Stage(e: Db, backup: Bytes, k: nat) {
    match k
    case 0 => true
    case 1 => Copied(e, backup)
    case 2 => Flushed(e, backup)
    case 3 => Flushed(e, backup)
    case 4 => Flushed(e, backup)
    case 5 => Flushed(e, backup) && e.pending == []
    case 6 => Renamed(e, backup)
    case _ => Renamed(e, backup) && e.pending == []
  }

  /** A sidecar is gone after its unlink, unless that failed. */
  predicate Sidecars(d: Db, e: Db, fails: set<FileName>, k: nat) {
    && (Wal in e.Live() <==> Wal in d.Live() && (k <= 2 || Wal in fails))
    && (Shm in e.Live() <==> Shm in d.Live() && (k <= 3 || Shm in fails))
  }

  lemma OverwriteStage(e: Db, backup: Bytes)
    requires e.WellFormed() && Temp in e.Live()
    ensures e.Overwrite(Temp, backup).WellFormed() && Copied(e.Overwrite(Temp, backup), backup)
    ensures e.Overwrite(Temp, backup).Live() == e.Live()
  {
    LiveHasData(e);
  }

  lemma CreateStage(e: Db, backup: Bytes)
    requires e.WellFormed() && Temp !in e.Live()
    ensures e.Create(Temp, backup).WellFormed() && Copied(e.Create(Temp, backup), backup)
    ensures e.Create(Temp, backup).Live() == e.Live()[Temp := e.next]
  {
    CopyShows(e, backup);
  }

  lemma CopyStage(e: Db, backup: Bytes, fails: set<FileName>)
    requires e.WellFormed()
    ensures var f := Exec(e, CopyToTemp, backup, fails);
      f.WellFormed() && Copied(f, backup) && forall n | n != Temp :: SameBinding(e.Live(), f.Live(), n)
  {
    if Temp in e.Live() { OverwriteStage(e, backup); } else { CreateStage(e, backup); }
  }

  lemma FsyncStage(e: Db, backup: Bytes, fails: set<FileName>)
    requires e.WellFormed() && Copied(e, backup)
    ensures var f := Exec(e, FsyncTemp, backup, fails); f.WellFormed() && Flushed(f, backup) && f.Live() == e.Live()
  {
  }

  lemma UnlinkStage(e: Db, backup: Bytes, n: FileName)
    requires e.WellFormed() && Flushed(e, backup) && n != Temp
    ensures e.Unlink(n).WellFormed() && Flushed(e.Unlink(n), backup)
  {
    UnlinkShows(e, n);
  }

  lemma FlushStage(e: Db)
    requires e.WellFormed()
    ensures e.FsyncDir().WellFormed() && e.FsyncDir().Live() == e.Live()
  {
    LiveHasData(e);
  }

  lemma RenameStage(e: Db, backup: Bytes)
    requires e.WellFormed() && Flushed(e, backup)
    ensures e.Rename(Temp, Main).WellFormed() && Renamed(e.Rename(Temp, Main), backup)
    ensures forall n | n != Main && n != Temp :: n in e.Rename(Temp, Main).Live() <==> n in e.Live()
  {
    LiveHasData(e);
    RenameShows(e);
  }

  lemma StageStep(d: Db, e: Db, backup: Bytes, fails: set<FileName>, k: nat)
    requires k < STEPS && e.WellFormed() && Stage(e, backup, k) && Sidecars(d, e, fails, k)
    ensures var f := Exec(e, Step(k), backup, fails);
      f.WellFormed() && Stage(f, backup, k + 1) && Sidecars(d, f, fails, k + 1)
  {
    match k
    case 0 => CopyStage(e, backup, fails);
    case 1 => FsyncStage(e, backup, fails);
    case 2 => UnlinkStage(e, backup, Wal); UnlinkShows(e, Wal);
    case 3 => UnlinkStage(e, backup, Shm); UnlinkShows(e, Shm);
    case 4 => FlushStage(e);
    case 5 => RenameStage(e, backup);
    case 6 => FlushStage(e);
  }

  /** Every prefix of the restore reaches its stage, on any disk. */
  lemma {:induction false} ReachesStage(d: Db, backup: Bytes, fails: set<FileName>, k: nat)
    requires d.WellFormed() && k <= STEPS
    ensures var e := After(d, backup, fails, k); e.WellFormed() && Stage(e, backup, k) && Sidecars(d, e, fails, k)
  {
    if k > 0 {
      ReachesStage(d, backup, fails, k - 1);
      StageStep(d, After(d, backup, fails, k - 1), backup, fails, k - 1);
    }
  }

  // Safety of one run.

  /** No sidecar is there whose unlink fails. */
  predicate Removable(d: Db, fails: set<FileName>) {
    (Wal in d.Live() ==> Wal !in fails) && (Shm in d.Live() ==> Shm !in fails)
  }

  /** The run takes the backup's place only with the sidecars gone. */
  predicate Harmless(d: Db, fails: set<FileName>, k: nat) {
    k <= 5 || Removable(d, fails)
  }

  lemma StepSafe(e: Db, original: Option<Bytes>, backup: Bytes, fails: set<FileName>, k: nat)
    requires k < STEPS && Safe(e, original, backup) && Stage(e, backup, k) && (k == 5 ==> NoSidecars(e.Live()))
    ensures Safe(Exec(e, Step(k), backup, fails), original, backup)
  {
    match k
    case 0 => if Temp in e.Live() { OverwriteSafe(e, original, backup); } else { CreateSafe(e, original, backup); }
    case 1 => FsyncSafe(e, original, backup);
    case 2 => UnlinkSafe(e, original, backup, Wal);
    case 3 => UnlinkSafe(e, original, backup, Shm);
    case 4 => FlushSafe(e, original, backup);
    case 5 => RenameSafe(e, original, backup);
    case 6 => FlushSafe(e, original, backup);
  }

  /** Every prefix of a harmless run keeps the disk safe, whoever ran before. */
  lemma {:induction false} StaysSafe(d: Db, original: Option<Bytes>, backup: Bytes, fails: set<FileName>, k: nat)
    requires Safe(d, original, backup) && k <= STEPS && Harmless(d, fails, k)
    ensures Safe(After(d, backup, fails, k), original, backup)
  {
    if k > 0 {
      StaysSafe(d, original, backup, fails, k - 1);
      ReachesStage(d, backup, fails, k - 1);
      StepSafe(After(d, backup, fails, k - 1), original, backup, fails, k - 1);
    }
  }

  /** Crash-safe restore: wherever a restore loses power, and whatever subset of the unflushed directory
      operations and whatever bytes survive, the disk holds the un-restored main file or the whole backup
      with no sidecar - never the backup beside a stale write-ahead log - and a restore can start again. */
  lemma CrashIsRecoverable(d: Db, original: Option<Bytes>, backup: Bytes, fails: set<FileName>, k: nat,
                           keep: set<nat>, garbage: map<Inode, Bytes>)
    requires Safe(d, original, backup) && k <= STEPS && Harmless(d, fails, k)
    ensures var c := After(d, backup, fails, k).Crash(keep, garbage);
      RecoverableIn(c, c.dir, original, backup) && Safe(c, original, backup)
  {
    StaysSafe(d, original, backup, fails, k);
    CrashSafe(After(d, backup, fails, k), original, backup, keep, garbage);
  }

  /** Directory `o` pairs the backup with a sidecar. */
  predicate PairedIn(d: Db, o: Directory, backup: Bytes) {
    MainBytes(d, o) == Some(backup) && !NoSidecars(o)
  }

  /** No power loss can pair the backup with a sidecar now, nor does a process see them paired. */
  ghost predicate NeverPaired(d: Db, backup: Bytes) {
    forall keep :: !PairedIn(d, d.Outcome(keep), backup)
  }

  /** A disk that pairs nothing is safe for some main file other than the backup. */
  lemma UnpairedIsSafe(d: Db, original: Option<Bytes>, backup: Bytes) returns (other: Option<Bytes>)
    requires Safe(d, original, backup) && (original != Some(backup) || NeverPaired(d, backup))
    ensures Safe(d, other, backup) && other != Some(backup)
  {
    if original != Some(backup) { return original; }
    other := Some(backup + [0]);
    assert backup + [0] != backup;
    forall keep ensures SafeIn(d, d.Outcome(keep), other, backup) {
      assert SafeIn(d, d.Outcome(keep), original, backup) && !PairedIn(d, d.Outcome(keep), backup);
    }
  }

  lemma SafeIsUnpaired(d: Db, original: Option<Bytes>, backup: Bytes)
    requires Safe(d, original, backup) && original != Some(backup)
    ensures NeverPaired(d, backup)
  {
    forall keep ensures !PairedIn(d, d.Outcome(keep), backup) { assert SafeIn(d, d.Outcome(keep), original, backup); }
  }

  /** If nothing is paired at the start - as when the clone's main file is not the backup, or has no sidecar - then a
      run, cut anywhere, can pair the backup with a sidecar exactly when it gets as far as the rename and the unlink
      of a sidecar that is there has failed. */
  lemma NothingIsPairedIff(d: Db, original: Option<Bytes>, backup: Bytes, fails: set<FileName>, k: nat)
    requires Safe(d, original, backup) && (original != Some(backup) || NeverPaired(d, backup)) && k <= STEPS
    ensures NeverPaired(After(d, backup, fails, k), backup) <==> Harmless(d, fails, k)
  {
    var e := After(d, backup, fails, k);
    if Harmless(d, fails, k) {
      var other := UnpairedIsSafe(d, original, backup);
      StaysSafe(d, other, backup, fails, k);
      SafeIsUnpaired(e, other, backup);
    } else {
      ReachesStage(d, backup, fails, k);
      assert PairedIn(e, e.Live(), backup);
      var all := LiveIsOutcome(e);
      assert PairedIn(e, e.Outcome(all), backup);
    }
  }

  // Re-runs.

  /** How an attempt ends: the process stops and the disk stays as it is, or power is lost. */
  datatype Ending = Stopped | PowerLost(keep: set<nat>, garbage: map<Inode, Bytes>)

  /** One attempt that does not finish: cut short after some steps, or giving up on a bad copy. */
  datatype Attempt =
    | CutShort(steps: nat, fails: set<FileName>, ending: Ending)
    | GaveUp(fails: set<FileName>, ending: Ending)

  function StepsOf(a: Attempt): nat {
    if a.GaveUp? then CHECKED else if a.steps <= STEPS then a.steps else STEPS
  }

  function BeforeEnding(d: Db, backup: Bytes, a: Attempt): Db {
    if a.GaveUp? then GivenUp(d, backup, a.fails) else After(d, backup, a.fails, StepsOf(a))
  }

  function Ended(e: Db, ending: Ending): Db {
    match ending
    case Stopped => e
    case PowerLost(keep, garbage) => e.Crash(keep, garbage)
  }

  function AfterAttempt(d: Db, backup: Bytes, a: Attempt): Db {
    Ended(BeforeEnding(d, backup, a), a.ending)
  }

  /** The disk after a series of such attempts. */
  function Interrupted(d: Db, backup: Bytes, attempts: seq<Attempt>): Db {
    if attempts == [] then d
    else AfterAttempt(Interrupted(d, backup, attempts[..|attempts| - 1]), backup, attempts[|attempts| - 1])
  }

  /** Every attempt was harmless when it was made. */
  predicate AllHarmless(d: Db, backup: Bytes, attempts: seq<Attempt>) {
    attempts == [] || (
      var n := |attempts| - 1;
      && AllHarmless(d, backup, attempts[..n])
      && Harmless(Interrupted(d, backup, attempts[..n]), attempts[n].fails, StepsOf(attempts[n])))
  }

  lemma GivingUpSafe(d: Db, original: Option<Bytes>, backup: Bytes, fails: set<FileName>)
    requires Safe(d, original, backup)
    ensures Safe(GivenUp(d, backup, fails), original, backup)
  {
    StaysSafe(d, original, backup, fails, CHECKED);
    UnlinkSafe(After(d, backup, fails, CHECKED), original, backup, Temp);
  }

  lemma AttemptSafe(d: Db, original: Option<Bytes>, backup: Bytes, a: Attempt)
    requires Safe(d, original, backup) && Harmless(d, a.fails, StepsOf(a))
    ensures Safe(AfterAttempt(d, backup, a), original, backup)
  {
    if a.GaveUp? { GivingUpSafe(d, original, backup, a.fails); }
    else { StaysSafe(d, original, backup, a.fails, StepsOf(a)); }
    EndedSafe(BeforeEnding(d, backup, a), original, backup, a.ending);
  }

  lemma EndedSafe(e: Db, original: Option<Bytes>, backup: Bytes, ending: Ending)
    requires Safe(e, original, backup)
    ensures Safe(Ended(e, ending), original, backup)
  {
    if ending.PowerLost? { CrashSafe(e, original, backup, ending.keep, ending.garbage); }
  }

  lemma {:induction false} InterruptedSafe(d: Db, original: Option<Bytes>, backup: Bytes, attempts: seq<Attempt>)
    requires Safe(d, original, backup) && AllHarmless(d, backup, attempts)
    ensures Safe(Interrupted(d, backup, attempts), original, backup)
  {
    if attempts != [] {
      var n := |attempts| - 1;
      InterruptedSafe(d, original, backup, attempts[..n]);
      AttemptSafe(Interrupted(d, backup, attempts[..n]), original, backup, attempts[n]);
    }
  }

  /** However often the restore is stopped or loses power, and wherever, a further power loss leaves a recoverable
      disk, and pairs nothing that was not paired at the start. */
  lemma NothingIsEverPaired(d: Db, original: Option<Bytes>, backup: Bytes, attempts: seq<Attempt>,
                            keep: set<nat>, garbage: map<Inode, Bytes>)
    requires Safe(d, original, backup) && AllHarmless(d, backup, attempts)
    ensures var c := Interrupted(d, backup, attempts); var lost := c.Crash(keep, garbage);
      && RecoverableIn(lost, lost.dir, original, backup)
      && (original != Some(backup) || NeverPaired(d, backup) ==> NeverPaired(c, backup) && NeverPaired(lost, backup))
  {
    var c := Interrupted(d, backup, attempts);
    InterruptedSafe(d, original, backup, attempts);
    CrashSafe(c, original, backup, keep, garbage);
    if original != Some(backup) || NeverPaired(d, backup) {
      var other := UnpairedIsSafe(d, original, backup);
      InterruptedSafe(d, other, backup, attempts);
      SafeIsUnpaired(c, other, backup);
      CrashSafe(c, other, backup, keep, garbage);
      SafeIsUnpaired(c.Crash(keep, garbage), other, backup);
    }
  }

  lemma GivingUpWellFormed(d: Db, backup: Bytes, fails: set<FileName>)
    requires d.WellFormed()
    ensures GivenUp(d, backup, fails).WellFormed()
  {
    ReachesStage(d, backup, fails, CHECKED);
  }

  lemma EndedWellFormed(e: Db, ending: Ending)
    requires e.WellFormed()
    ensures Ended(e, ending).WellFormed()
  {
    if ending.PowerLost? { CrashIsWellFormed(e, ending.keep, ending.garbage); }
  }

  lemma AttemptWellFormed(d: Db, backup: Bytes, a: Attempt)
    requires d.WellFormed()
    ensures AfterAttempt(d, backup, a).WellFormed()
  {
    if a.GaveUp? { GivingUpWellFormed(d, backup, a.fails); } else { ReachesStage(d, backup, a.fails, StepsOf(a)); }
    EndedWellFormed(BeforeEnding(d, backup, a), a.ending);
  }

  lemma {:induction false} InterruptedWellFormed(d: Db, backup: Bytes, attempts: seq<Attempt>)
    requires d.WellFormed()
    ensures Interrupted(d, backup, attempts).WellFormed()
  {
    if attempts != [] {
      var n := |attempts| - 1;
      InterruptedWellFormed(d, backup, attempts[..n]);
      AttemptWellFormed(Interrupted(d, backup, attempts[..n]), backup, attempts[n]);
    }
  }

  /** The backup is there, with no sidecar and no temp file, all durable. */
  ghost predicate Restored(e: Db, backup: Bytes) {
    && e.WellFormed() && e.pending == [] && NoSidecars(e.dir) && Temp !in e.dir
    && MainBytes(e, e.dir) == Some(backup) && e.dir[Main] in e.synced
  }

  lemma EndsRestoredIff(d: Db, backup: Bytes, fails: set<FileName>)
    requires d.WellFormed()
    ensures Restored(After(d, backup, fails, STEPS), backup) <==> Removable(d, fails)
  {
    ReachesStage(d, backup, fails, STEPS);
  }

  /** Re-running converges: whatever happened to earlier attempts - stopped, power lost, unlinks failed - a run that
      is not interrupted leaves exactly the backup, unless it cannot unlink a sidecar that is there. */
  lemma RestoreConverges(d: Db, backup: Bytes, attempts: seq<Attempt>, fails: set<FileName>)
    requires d.WellFormed()
    ensures var c := Interrupted(d, backup, attempts);
      Restored(After(c, backup, fails, STEPS), backup) <==> Removable(c, fails)
  {
    InterruptedWellFormed(d, backup, attempts);
    EndsRestoredIff(Interrupted(d, backup, attempts), backup, fails);
  }

  // The flush between the unlinks and the rename.

  /** The restore up to its rename, without that flush. */
  function Unflushed(d: Db, backup: Bytes): Db {
    Exec(After(d, backup, {}, 4), RenameTemp, backup, {})
  }

  /** That flush is what makes the order safe: without it, a crash may keep the rename and lose the unlink,
      and pair the restored main file with the stale write-ahead log. */
  lemma UnflushedPairs(migrated: Bytes, log: Bytes, backup: Bytes)
    requires migrated != backup
    ensures exists d: Db, keep ::
      var c := Unflushed(d, backup).Crash(keep, map[]);
      Ready(d) && MainBytes(d, d.dir) != Some(backup) && PairedIn(c, c.dir, backup)
  {
    var d, e := Migrated(migrated, log), Cleared(migrated, log, backup);
    UnflushedRun(migrated, log, backup);
    RenameKeptUnlinkLost(e, backup);
    MigratedIsReady(migrated, log, backup);
    assert Unflushed(d, backup).Crash({1}, map[]) == e.Crash({1}, map[]);
  }

  function Migrated(migrated: Bytes, log: Bytes): Db {
    Disk(map[Main := 0, Wal := 1, Temp := 2], [], map[0 := migrated, 1 := log, 2 := []], {0, 1, 2}, 3)
  }

  /** Log unlinked and temp file renamed, neither flushed. */
  function Cleared(migrated: Bytes, log: Bytes, backup: Bytes): Db {
    Migrated(migrated, log).(pending := [Unbind(Wal), Move(Temp, Main, 2)],
                             data := map[0 := migrated, 1 := log, 2 := backup])
  }

  lemma MigratedIsReady(migrated: Bytes, log: Bytes, backup: Bytes)
    requires migrated != backup
    ensures var d := Migrated(migrated, log); Ready(d) && MainBytes(d, d.dir) != Some(backup)
  {
  }

  lemma RenameKeptUnlinkLost(e: Db, backup: Bytes)
    requires e.pending == [Unbind(Wal), Move(Temp, Main, 2)] && Wal in e.dir && 2 in e.data && e.data[2] == backup
    requires 2 in e.synced
    ensures var c := e.Crash({1}, map[]); PairedIn(c, c.dir, backup)
  {
    var move: DirOp<FileName> := Move(Temp, Main, 2);
    KeptSecond(Unbind(Wal), move);
    AppendOp(e.dir, [], move);
    assert [] + [move] == [move];
    assert e.Crash({1}, map[]).dir == Apply(e.dir, move);
  }

  lemma KeptSecond(a: DirOp<FileName>, b: DirOp<FileName>)
    ensures Kept([a, b], {1}) == [b]
  {
    assert [a, b][..1] == [a] && [a][..0] == [];
    assert Kept([a], {1}) == Kept([], {1}) + [];
  }

  lemma UnflushedRun(migrated: Bytes, log: Bytes, backup: Bytes)
    ensures Unflushed(Migrated(migrated, log), backup) == Cleared(migrated, log, backup)
  {
    var d := Migrated(migrated, log);
    var s2 := d.(data := map[0 := migrated, 1 := log, 2 := backup]);
    var s3 := s2.(pending := [Unbind(Wal)]);
    CopiedAndFlushed(migrated, log, backup);
    UnlinkShows(s2, Wal);
    assert [] + [Unbind(Wal)] == s3.pending;
    assert s3.Live() == map[Main := 0, Temp := 2];
    FourSteps(d, backup);
  }

  lemma CopiedAndFlushed(migrated: Bytes, log: Bytes, backup: Bytes)
    ensures var d := Migrated(migrated, log);
      Exec(Exec(d, CopyToTemp, backup, {}), FsyncTemp, backup, {})
        == d.(data := map[0 := migrated, 1 := log, 2 := backup])
  {
    var d := Migrated(migrated, log);
    assert d.data[2 := backup] == map[0 := migrated, 1 := log, 2 := backup];
    assert d.synced - {2} + {2} == d.synced;
  }

  lemma FourSteps(d: Db, backup: Bytes)
    ensures After(d, backup, {}, 4)
      == Exec(Exec(d, CopyToTemp, backup, {}), FsyncTemp, backup, {}).Unlink(Wal).Unlink(Shm)
  {
    OneStep(d, backup, {}, 0);
    OneStep(d, backup, {}, 1);
    OneStep(d, backup, {}, 2);
    OneStep(d, backup, {}, 3);
  }

  // The program, as it runs and reports.

  /** `dbFileSetHash`: the digest of the main file and the write-ahead log, each followed by a zero byte, an
      absent file contributing nothing. The digest is modelled by the bytes it is taken over. */
  function FileSetHash(main: Option<Bytes>, wal: Option<Bytes>): Bytes {
    main.GetOr([]) + [0] + wal.GetOr([]) + [0]
  }

  function ReadFile(d: Db, n: FileName): Option<Bytes> {
    if n in d.Live() && d.Live()[n] in d.data then Some(d.data[d.Live()[n]]) else None
  }

  datatype SeamStep = TempWritten | SidecarsUnlinked | MainRenamed

  datatype Outcome =
    | Thrown(at: SeamStep)
    | BadBackup
    | Finished(ok: bool)

  /** The disk that a run with this outcome leaves. */
  function LeftBy(outcome: Outcome, d: Db, backup: Bytes, fails: set<FileName>): Db {
    match outcome
    case BadBackup => GivenUp(d, backup, fails)
    case Thrown(TempWritten) => After(d, backup, fails, CHECKED)
    case Thrown(SidecarsUnlinked) => After(d, backup, fails, 5)
    case Thrown(MainRenamed) => After(d, backup, fails, 6)
    case Finished(_) => After(d, backup, fails, STEPS)
  }

  class RestoreHost {
    var disk: Db

    constructor (d: Db)
      ensures disk == d
    {
      disk := d;
    }

    /** Write temp from the backup, and flush its bytes. */
    method PrepareTemp(backup: Bytes, ghost fails: set<FileName>)
      requires disk.WellFormed()
      modifies this
      ensures disk == After(old(disk), backup, fails, CHECKED)
    {
      ghost var d := disk;
      CopyStage(d, backup, fails);
      disk := if Temp in disk.Live() then disk.Overwrite(Temp, backup) else disk.Create(Temp, backup);
      assert disk == After(d, backup, fails, 1);
      disk := disk.FsyncFile(Temp);
    }

    /** An unlink whose error, if it throws one, is swallowed. */
    method TryUnlink(n: FileName, backup: Bytes, fails: set<FileName>)
      modifies this
      ensures disk == Exec(old(disk), Discard(n), backup, fails)
    {
      if n !in fails { disk := disk.Unlink(n); }
    }

    /** Discard the sidecars, and make their removal durable. */
    method DiscardSidecars(ghost d: Db, backup: Bytes, fails: set<FileName>)
      requires disk == After(d, backup, fails, CHECKED)
      modifies this
      ensures disk == After(d, backup, fails, 5)
    {
      DiscardingSteps(d, disk, backup, fails);
      TryUnlink(Wal, backup, fails);
      TryUnlink(Shm, backup, fails);
      disk := disk.FsyncDir();
    }

    /** `rehearseCoupledRestore`. `throwAt` is the test seam that stops the run right after a durable step; however a
        run ends, the next one may start from the disk it leaves. A finished run has restored exactly the backup
        unless a sidecar that was there could not be unlinked. It reports success exactly when the log that is left
        has the bytes of the backup's own: the log is part of the backup's file set, and the restore copies only the
        main file. */
    method RehearseCoupledRestore(ghost original: Option<Bytes>, backup: Bytes, backupWal: Option<Bytes>,
                                  intact: Bytes -> bool, throwAt: Option<SeamStep>, fails: set<FileName>)
      returns (outcome: Outcome)
      requires Safe(disk, original, backup)
      modifies this
      ensures disk.WellFormed() && (Removable(old(disk), fails) ==> Safe(disk, original, backup))
      ensures outcome == if !intact(backup) then BadBackup
                         else if throwAt.Some? then Thrown(throwAt.value)
                         else Finished(backupWal.GetOr([]) == ReadFile(disk, Wal).GetOr([]))
      ensures disk == LeftBy(outcome, old(disk), backup, fails)
      ensures outcome.BadBackup? ==> SameClone(old(disk), disk) && (Temp in disk.Live() <==> Temp in fails)
      ensures outcome.Finished? ==> (Restored(disk, backup) <==> Removable(old(disk), fails))
      ensures outcome.Finished? && Removable(old(disk), fails) ==> (outcome.ok <==> backupWal.GetOr([]) == [])
    {
      var backupHash := FileSetHash(Some(backup), backupWal);
      ghost var start := disk;
      PrepareTemp(backup, fails);
      if !intact(backup) {
        GivingUpSafe(start, original, backup, fails);
        GivingUpKeepsClone(start, original, backup, fails);
        TryUnlink(Temp, backup, fails);
        return BadBackup;
      }
      outcome := RestorePrepared(start, backup, backupHash, backupWal, intact, throwAt, fails);
      LeavesSafe(outcome, start, original, backup, fails);
      EndsRestoredIff(start, backup, fails);
    }

    /** The restore, once its temp file is flushed and intact. */
    method RestorePrepared(ghost start: Db, backup: Bytes, backupHash: Bytes, ghost backupWal: Option<Bytes>,
                           intact: Bytes -> bool, throwAt: Option<SeamStep>, fails: set<FileName>)
      returns (outcome: Outcome)
      requires start.WellFormed() && disk == After(start, backup, fails, CHECKED) && intact(backup)
      requires backupHash == FileSetHash(Some(backup), backupWal)
      modifies this
      ensures outcome == if throwAt.Some? then Thrown(throwAt.value)
                         else Finished(backupWal.GetOr([]) == ReadFile(disk, Wal).GetOr([]))
      ensures disk == LeftBy(outcome, start, backup, fails)
    {
      if throwAt == Some(TempWritten) { return Thrown(TempWritten); }
      DiscardSidecars(start, backup, fails);
      if throwAt == Some(SidecarsUnlinked) { return Thrown(SidecarsUnlinked); }
      ReplaceMain(start, backup, fails);
      if throwAt == Some(MainRenamed) { return Thrown(MainRenamed); }
      NoSeamLeft(throwAt);
      var hash, intactNow := Settle(start, backup, fails, intact);
      HashesAgree(backup, backupWal, ReadFile(disk, Wal));
      return Finished(hash == backupHash && intactNow);
    }

    method ReplaceMain(ghost d: Db, backup: Bytes, ghost fails: set<FileName>)
      requires d.WellFormed() && disk == After(d, backup, fails, 5)
      modifies this
      ensures disk == After(d, backup, fails, 6)
    {
      ReachesStage(d, backup, fails, 5);
      disk := disk.Rename(Temp, Main);
    }

    /** Flush the directory, and look at what is there now. */
    method Settle(ghost d: Db, backup: Bytes, ghost fails: set<FileName>, intact: Bytes -> bool)
      returns (hash: Bytes, intactNow: bool)
      requires d.WellFormed() && disk == After(d, backup, fails, 6)
      modifies this
      ensures disk == After(d, backup, fails, STEPS)
      ensures hash == FileSetHash(Some(backup), ReadFile(disk, Wal)) && intactNow == intact(backup)
    {
      ReachesStage(d, backup, fails, STEPS);
      disk := disk.FsyncDir();
      var main, wal := ReadFile(disk, Main), ReadFile(disk, Wal);
      hash, intactNow := FileSetHash(main, wal), intact(main.GetOr([]));
    }
  }

  lemma LeavesSafe(outcome: Outcome, d: Db, original: Option<Bytes>, backup: Bytes, fails: set<FileName>)
    requires Safe(d, original, backup)
    ensures var e := LeftBy(outcome, d, backup, fails);
      e.WellFormed() && (Removable(d, fails) ==> Safe(e, original, backup))
  {
    if outcome.BadBackup? {
      GivingUpSafe(d, original, backup, fails);
    } else {
      var k := match outcome case Thrown(TempWritten) => CHECKED case Thrown(SidecarsUnlinked) => 5
                             case Thrown(MainRenamed) => 6 case _ => STEPS;
      ReachesStage(d, backup, fails, k);
      if Removable(d, fails) { StaysSafe(d, original, backup, fails, k); }
    }
  }

  /** A run reports success although a sidecar outlives it exactly when that is no log whose bytes differ from the
      log of the backup: a leftover `-shm`, or an empty log beside a backup without one. */
  lemma SuccessOverlooksSidecarIff(d: Db, backup: Bytes, backupWal: Option<Bytes>, fails: set<FileName>)
    requires d.WellFormed()
    ensures var e := After(d, backup, fails, STEPS);
      FileSetHash(Some(backup), ReadFile(e, Wal)) == FileSetHash(Some(backup), backupWal) && !Restored(e, backup)
      <==> !Removable(d, fails) && ReadFile(e, Wal).GetOr([]) == backupWal.GetOr([])
  {
    var e := After(d, backup, fails, STEPS);
    EndsRestoredIff(d, backup, fails);
    HashesAgree(backup, backupWal, ReadFile(e, Wal));
  }

  /** A process sees the clone as before: main file and sidecars under the same names, and the main file's bytes. */
  ghost predicate SameClone(d: Db, e: Db) {
    (forall n | n != Temp :: SameBinding(d.Live(), e.Live(), n)) && MainBytes(d, d.Live()) == MainBytes(e, e.Live())
  }

  lemma CopyKeepsClone(d: Db, original: Option<Bytes>, backup: Bytes, fails: set<FileName>)
    requires Safe(d, original, backup)
    ensures SameClone(d, Exec(d, CopyToTemp, backup, fails))
  {
    var all := LiveIsOutcome(d);
    assert SafeIn(d, d.Outcome(all), original, backup);
    if Temp in d.Live() { OverwriteStage(d, backup); } else { CreateStage(d, backup); }
  }

  lemma SameCloneThrough(d: Db, e: Db, f: Db)
    requires SameClone(d, e) && SameClone(e, f)
    ensures SameClone(d, f)
  {
    forall n | n != Temp ensures SameBinding(d.Live(), f.Live(), n) {
      assert SameBinding(d.Live(), e.Live(), n) && SameBinding(e.Live(), f.Live(), n);
    }
  }

  lemma DiscardKeepsClone(d: Db, backup: Bytes, fails: set<FileName>)
    requires Temp in d.Live()
    ensures var e := Exec(d, Discard(Temp), backup, fails); SameClone(d, e) && (Temp in e.Live() <==> Temp in fails)
  {
    UnlinkShows(d, Temp);
  }

  lemma FsyncKeepsClone(e: Db, backup: Bytes, fails: set<FileName>)
    ensures SameClone(e, Exec(e, FsyncTemp, backup, fails))
  {
  }

  lemma {:induction false} PreparingKeepsClone(d: Db, original: Option<Bytes>, backup: Bytes, fails: set<FileName>,
                                               k: nat)
    requires Safe(d, original, backup) && k <= CHECKED
    ensures SameClone(d, After(d, backup, fails, k))
  {
    if k > 0 {
      var e := After(d, backup, fails, k - 1);
      PreparingKeepsClone(d, original, backup, fails, k - 1);
      if k == 1 { CopyKeepsClone(e, original, backup, fails); } else { FsyncKeepsClone(e, backup, fails); }
      SameCloneThrough(d, e, After(d, backup, fails, k));
    }
  }

  lemma GivingUpKeepsClone(d: Db, original: Option<Bytes>, backup: Bytes, fails: set<FileName>)
    requires Safe(d, original, backup)
    ensures var e := GivenUp(d, backup, fails); SameClone(d, e) && (Temp in e.Live() <==> Temp in fails)
  {
    var e := After(d, backup, fails, CHECKED);
    ReachesStage(d, backup, fails, CHECKED);
    PreparingKeepsClone(d, original, backup, fails, CHECKED);
    DiscardKeepsClone(e, backup, fails);
    SameCloneThrough(d, e, GivenUp(d, backup, fails));
  }

  lemma NoSeamLeft(at: Option<SeamStep>)
    requires at != Some(TempWritten) && at != Some(SidecarsUnlinked) && at != Some(MainRenamed)
    ensures at.None?
  {
    match at {
      case None =>
      case Some(TempWritten) =>
      case Some(SidecarsUnlinked) =>
      case Some(MainRenamed) =>
    }
  }

  lemma HashesAgree(main: Bytes, a: Option<Bytes>, b: Option<Bytes>)
    ensures FileSetHash(Some(main), a) == FileSetHash(Some(main), b) <==> a.GetOr([]) == b.GetOr([])
  {
    var x, y := FileSetHash(Some(main), a), FileSetHash(Some(main), b);
    var n := |main| + 1;
    assert x[n..|x| - 1] == a.GetOr([]) && y[n..|y| - 1] == b.GetOr([]);
  }
}
