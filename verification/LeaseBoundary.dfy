/** Where the fourth assumption bites. The code renames without comparing again, so a takeover can
    claim a lease it never validated. This module shows such a run, and says exactly which claims
    leave mutual exclusion intact. */
module LeaseBoundary {
  import opened Wrappers
  import opened Lease
  import opened LeaseProtocol
  import opened LeaseSafety
  import opened LeaseExclusion
  import opened LeaseConservation

  /** At no moment of an assumed continuation of `s` do two leases have live holders. */
  ghost predicate StaysExclusive(s: State) {
    forall more, l, m ::
      AssumedFrom(s, more) && LiveHolder(Run(s, more), l) && LiveHolder(Run(s, more), m) ==> l == m
  }

  lemma Snoc(s: State, actions: seq<Action>, a: Action)
    ensures Run(s, actions + [a]) == Next(Run(s, actions), a)
    ensures AssumedFrom(s, actions) && Assumed(Run(s, actions), a) ==> AssumedFrom(s, actions + [a])
  {
    var longer := actions + [a];
    assert longer[..|longer| - 1] == actions;
    if AssumedFrom(s, actions) && Assumed(Run(s, actions), a) {
      forall i | 0 <= i < |longer| ensures Assumed(Run(s, longer[..i]), longer[i]) {
        if i < |actions| { assert longer[..i] == actions[..i]; }
      }
    }
  }

  /** Three undisturbed steps publish a staged record on a free lease path. */
  lemma PublishAlone(s: State, c: CommandId) returns (t: State)
    requires c in s.commands && s.commands[c].pc.OpenStaging? && LeasePath !in s.files
    ensures t == Next(Next(Next(s, Advance(c, CALM)), Advance(c, CALM)), Advance(c, CALM))
    ensures var p := s.commands[c].pc.p;
      && t.published == s.published[p.record.leaseId := Publication(p.record, p.parent)]
      && t.granted == s.granted + {p.record.leaseId} && t.dead == s.dead
      && LeasePath in t.files && t.files[LeasePath] == Whole(p.record)
      && (forall n | Evidence(n) :: SameAt(s.files, t.files, n))
      && t.commands.Keys == s.commands.Keys && (forall d <- s.commands :: d != c ==> t.commands[d] == s.commands[d])
  {
    var s1 := Next(s, Advance(c, CALM));
    var s2 := Next(s1, Advance(c, CALM));
    t := Next(s2, Advance(c, CALM));
  }

  const ROOT_OPTIONS := AcquireOptions("task", "tool", None, None, None, None, None, None)
  const ANY_FACTS := RepoFacts("repo", "tree", None, None, [], "digest", None, Bindings("", "", "", ""))
  const CALM := Environment(Absent, Some(ANY_FACTS), false)

  /** Once a live holder has lost the lease path, an ordinary acquire by a newcomer breaks exclusion. */
  lemma NewcomerBreaksExclusion(s: State, l: LeaseId, c: CommandId, writer: WriterId)
    requires Sound(s) && LiveHolder(s, l) && LeasePath !in s.files
    requires c !in s.commands && writer !in s.dead && Idle(s, writer)
    ensures !StaysExclusive(s)
  {
    var more, t := NewcomerAcquires(s, c, writer);
    assert l != c;
    assert LiveHolder(Run(s, more), l) && LiveHolder(Run(s, more), c);
  }

  /** A newcomer's acquire, undisturbed, publishes its lease on a free path. */
  lemma NewcomerAcquires(s: State, c: CommandId, writer: WriterId) returns (more: seq<Action>, t: State)
    requires LeasePath !in s.files && c !in s.commands && writer !in s.dead && Idle(s, writer)
    ensures AssumedFrom(s, more) && Run(s, more) == t && t.dead == s.dead
    ensures t.granted == s.granted + {c} && c in t.published && t.published[c].record.writer == writer
    ensures t.published == s.published[c := t.published[c]]
  {
    var start := Start(c, writer, Acquire(ROOT_OPTIONS), Some(ANY_FACTS), 0);
    var step := Advance(c, CALM);
    var s1 := Next(s, start);
    t := PublishAlone(s1, c);
    Snoc(s, [], start);
    Snoc(s, [start], step);
    Snoc(s, [start] + [step], step);
    Snoc(s, [start] + [step] + [step], step);
    more := [start] + [step] + [step] + [step];
    assert Run(s, []) == s && Run(s, more) == t;
    assert AssumedFrom(s, more);
  }

  lemma ClaimTakesThePath(s: State, c: CommandId, env: Environment)
    requires c in s.commands && s.commands[c].pc.RenameClaim? && LeasePath in s.files && !env.fault
    ensures var t := Next(s, Advance(c, env));
      && LeasePath !in t.files && t.commands.Keys == s.commands.Keys && t.dead == s.dead
      && t.granted == s.granted && t.published == s.published
  {
  }

  /** The lease at the path is live-held when its writer is alive. */
  lemma PathIsHeld(s: State)
    requires Sound(s) && Exclusive(s) && LeasePath in s.files
    ensures s.files[LeasePath].Whole?
    ensures var r := s.files[LeasePath].record; r.writer !in s.dead ==> LiveHolder(s, r.leaseId)
  {
    assert Place(LeasePath);
    LeaseWriter(s, s.files[LeasePath].record);
  }

  /** A claim that moves a lease of a dead writer leaves every exclusion invariant in place, whether or not
      it is the lease the takeover validated. */
  lemma DeadClaimExcludes(s: State, c: CommandId, env: Environment)
    requires Sound(s) && Exclusive(s) && c in s.commands && s.commands[c].pc.RenameClaim?
    requires LeasePath in s.files ==> s.files[LeasePath].Whole? && s.files[LeasePath].record.writer in s.dead
    ensures Exclusive(AdvanceTakeover(s, c, env))
  {
    var t := AdvanceTakeover(s, c, env);
    if LeasePath in s.files {
      assert Place(LeasePath);
      LeaseWriter(s, s.files[LeasePath].record);
      OwnedLeaseIsAlive(s, s.files[LeasePath].record.leaseId);
    }
    ClaimEffect(s, c, env);
    if LeasePath in t.files { QuietExcludes(s, t, c); }
  }

  lemma NewNumber(commands: map<CommandId, Command>) returns (c: CommandId)
    ensures c !in commands
  {
    var used := set k <- commands :: k as int;
    c := AboveAll(used);
    assert forall k <- commands :: (k as int) in used;
  }

  lemma NewWriter(s: State) returns (w: WriterId)
    ensures w !in s.dead && Idle(s, w)
  {
    var pids := (set v <- s.dead :: v.process.pid) + (set c <- s.commands :: s.commands[c].writer.process.pid);
    var pid := AboveAll(pids);
    w := WriterId("newcomer", ProcessIdentity(pid, "start"));
    assert forall v <- s.dead :: v.process.pid in pids;
    assert forall c <- s.commands :: s.commands[c].writer.process.pid in pids;
  }

  lemma AboveAll(pids: set<int>) returns (pid: int)
    ensures pid >= 0 && forall p <- pids :: p < pid
    decreases |pids|
  {
    if p :| p in pids {
      var rest := AboveAll(pids - {p});
      pid := if p < rest then rest else p + 1;
      forall q <- pids ensures q < pid { assert q == p || q in pids - {p}; }
    } else {
      pid := 0;
    }
  }

  lemma FreePathIsUnsafe(t: State, l: LeaseId)
    requires Sound(t) && LiveHolder(t, l) && LeasePath !in t.files
    ensures !StaysExclusive(t)
  {
    var d := NewNumber(t.commands);
    var w := NewWriter(t);
    NewcomerBreaksExclusion(t, l, d, w);
  }

  lemma ExclusiveStays(t: State)
    requires Sound(t) && Exclusive(t)
    ensures StaysExclusive(t)
  {
    forall more, l, m | AssumedFrom(t, more) && LiveHolder(Run(t, more), l) && LiveHolder(Run(t, more), m)
      ensures l == m {
      RunStaysExclusive(t, more);
    }
  }

  lemma ClaimIsSafeIff(s: State, c: CommandId, env: Environment)
    requires Sound(s) && Exclusive(s)
    requires c in s.commands && s.commands[c].pc.RenameClaim? && LeasePath in s.files && !env.fault
    requires s.files[LeasePath].Whole?
    ensures StaysExclusive(Next(s, Advance(c, env))) <==> s.files[LeasePath].record.writer in s.dead
  {
    var t, r := Next(s, Advance(c, env)), s.files[LeasePath].record;
    PathIsHeld(s);
    ClaimTakesThePath(s, c, env);
    StepIsSound(s, Advance(c, env));
    if r.writer in s.dead {
      DeadClaimExcludes(s, c, env);
      ExclusiveStays(t);
    } else {
      FreePathIsUnsafe(t, r.leaseId);
    }
  }

  /** Exactly which claims are safe: after an assumed run, a claim that moves the lease at the path leaves
      mutual exclusion to hold in every assumed continuation if and only if the writer of the lease it
      moves is dead. The takeover proved that only of the writer of the lease it validated. */
  lemma ClaimIsSafeExactly(actions: seq<Action>, c: CommandId, env: Environment)
    requires AssumedRun(actions)
    requires var s := Run(INITIAL, actions);
      c in s.commands && s.commands[c].pc.RenameClaim? && LeasePath in s.files && !env.fault
    ensures var s := Run(INITIAL, actions);
      && s.files[LeasePath].Whole?
      && (StaysExclusive(Next(s, Advance(c, env))) <==> s.files[LeasePath].record.writer in s.dead)
  {
    RunIsSound(actions);
    RunExcludes(actions);
    PathIsHeld(Run(INITIAL, actions));
    ClaimIsSafeIff(Run(INITIAL, actions), c, env);
  }

  // The same question for the ledger: where the records end up, and what happens to the evidence.

  /** After `more` every published lease is in exactly one place, under its own name, and the evidence that was there
      after any part of `more` is still there. */
  ghost predicate KeepsLedger(s: State, more: seq<Action>) {
    && Conserved(Run(s, more).files, Run(s, more).published)
    && forall i | 0 <= i <= |more| :: EvidenceKept(Run(s, more[..i]).files, Run(s, more).files)
  }

  ghost predicate StaysConserved(s: State) {
    forall more :: AssumedFrom(s, more) ==> KeepsLedger(s, more)
  }

  /** A claim of the lease that the takeover validated is an assumed step. */
  lemma ValidatedClaimConserves(s: State, c: CommandId, env: Environment)
    requires Sound(s) && Exclusive(s) && Filed(s) && c in s.commands && s.commands[c].writer !in s.dead
    requires s.commands[c].pc.RenameClaim? && ClaimsValidated(s, s.commands[c].pc)
    ensures StaysConserved(Next(s, Advance(c, env)))
  {
    var t := Next(s, Advance(c, env));
    assert Assumed(s, Advance(c, env));
    StepIsSound(s, Advance(c, env));
    StepExcludes(s, Advance(c, env));
    StepFiled(s, Advance(c, env));
    forall more | AssumedFrom(t, more) ensures KeepsLedger(t, more) {
      RunStaysFiled(t, more);
      forall i | 0 <= i <= |more| ensures EvidenceKept(Run(t, more[..i]).files, Run(t, more).files) {
        EvidenceKeptSince(t, more, i);
      }
    }
  }

  /** The next step of an undisturbed takeover files what it claimed under the name of the lease it validated. */
  lemma FilesUnderValidatedName(t: State, c: CommandId)
    requires c in t.commands && t.commands[c].pc.RenameEvidence? && Claim(c) in t.files
    ensures var q := t.commands[c].pc.previous; var u := Next(t, Advance(c, CALM));
      Abandoned(q.leaseId, q.generation) in u.files && u.files[Abandoned(q.leaseId, q.generation)] == t.files[Claim(c)]
  {
  }

  lemma WrongNameIsNotConserved(t: State, c: CommandId)
    requires c in t.commands && t.commands[c].writer !in t.dead && t.commands[c].pc.RenameEvidence?
    requires Claim(c) in t.files && t.files[Claim(c)].Whole?
    requires t.files[Claim(c)].record.leaseId != t.commands[c].pc.previous.leaseId
    ensures !StaysConserved(t)
  {
    var step := Advance(c, CALM);
    var q := t.commands[c].pc.previous;
    var more := [] + [step];
    Snoc(t, [], step);
    assert AssumedFrom(t, []) && Assumed(t, step);
    FilesUnderValidatedName(t, c);
    var n := Abandoned(q.leaseId, q.generation);
    var files := Run(t, more).files;
    assert Place(n) && n in files && files[n].Whole? && !NamedAfter(n, files[n].record);
    assert !KeepsLedger(t, more);
  }

  lemma ClaimMovesRecord(s: State, c: CommandId, env: Environment)
    requires c in s.commands && s.commands[c].pc.RenameClaim? && LeasePath in s.files && !env.fault
    ensures var t := Next(s, Advance(c, env));
      && Claim(c) in t.files && t.files[Claim(c)] == s.files[LeasePath] && t.dead == s.dead && c in t.commands
      && t.commands[c].writer == s.commands[c].writer && t.commands[c].pc.RenameEvidence?
      && t.commands[c].pc.previous == s.commands[c].pc.previous
  {
  }

  /** Exactly which claims conserve: after an assumed run, the claim of a live takeover leaves every record in one
      place under its own name and all evidence write-once, in every assumed continuation, if and only if it moves
      the lease that the takeover validated. A dead writer is not enough: such a claim keeps exclusion, yet files
      the record under the wrong name. */
  lemma ClaimConservesExactly(actions: seq<Action>, c: CommandId, env: Environment)
    requires AssumedRun(actions)
    requires var s := Run(INITIAL, actions);
      && c in s.commands && s.commands[c].writer !in s.dead && s.commands[c].pc.RenameClaim?
      && LeasePath in s.files && !env.fault
    ensures var s := Run(INITIAL, actions);
      && s.files[LeasePath].Whole?
      && (StaysConserved(Next(s, Advance(c, env))) <==>
            s.files[LeasePath].record.leaseId == s.commands[c].pc.previous.leaseId)
  {
    RunIsSound(actions);
    RunExcludes(actions);
    RunFiled(actions);
    var s := Run(INITIAL, actions);
    PathIsHeld(s);
    if s.files[LeasePath].record.leaseId == s.commands[c].pc.previous.leaseId {
      ValidatedClaimConserves(s, c, env);
    } else {
      ClaimMovesRecord(s, c, env);
      WrongNameIsNotConserved(Next(s, Advance(c, env)), c);
    }
  }

  predicate FailStopFrom(s: State, actions: seq<Action>) {
    forall i | 0 <= i < |actions| :: FailStop(Run(s, actions[..i]), actions[i])
  }

  /** One more fail-stop step of a run from `s0`. */
  lemma StepOn(s0: State, actions: seq<Action>, s: State, a: Action) returns (longer: seq<Action>, t: State)
    requires Run(s0, actions) == s && FailStopFrom(s0, actions) && FailStop(s, a)
    ensures t == Next(s, a) && Run(s0, longer) == t && FailStopFrom(s0, longer) && longer == actions + [a]
  {
    longer, t := actions + [a], Next(s, a);
    Snoc(s0, actions, a);
    forall i | 0 <= i < |longer| ensures FailStop(Run(s0, longer[..i]), longer[i]) {
      if i < |actions| { assert longer[..i] == actions[..i]; }
      else { assert longer[..i] == actions; }
    }
  }

  /** A live command past its validation: every next step of it is fail-stop. */
  predicate UnderWay(s: State, c: CommandId) {
    c in s.commands && s.commands[c].writer !in s.dead
    && (s.commands[c].pc.RenameClaim? || ClaimedPc(s.commands[c].pc) || PublishPc(s.commands[c].pc)
      || s.commands[c].pc.Done?)
  }

  lemma StaysUnderWay(s: State, c: CommandId)
    requires UnderWay(s, c)
    ensures FailStop(s, Advance(c, CALM)) && UnderWay(Next(s, Advance(c, CALM)), c)
  {
  }

  function Times(c: CommandId, n: nat): seq<Action> {
    seq(n, i => Advance(c, CALM))
  }

  /** A command under way goes on, fail-stop, for any number of steps. */
  lemma {:induction false} KeepsGoing(s: State, c: CommandId, n: nat)
    requires UnderWay(s, c)
    ensures FailStopFrom(s, Times(c, n)) && UnderWay(Run(s, Times(c, n)), c)
  {
    if n > 0 {
      KeepsGoing(s, c, n - 1);
      var t := Run(s, Times(c, n - 1));
      StaysUnderWay(t, c);
      var longer, u := StepOn(s, Times(c, n - 1), t, Advance(c, CALM));
      assert Times(c, n) == longer;
    }
  }

  lemma FailStopJoins(s0: State, xs: seq<Action>, ys: seq<Action>)
    requires FailStopFrom(s0, xs) && FailStopFrom(Run(s0, xs), ys)
    ensures FailStopFrom(s0, xs + ys)
  {
    forall i | 0 <= i < |xs + ys| ensures FailStop(Run(s0, (xs + ys)[..i]), (xs + ys)[i]) {
      if i < |xs| {
        assert (xs + ys)[..i] == xs[..i];
      } else {
        assert (xs + ys)[..i] == xs + ys[..i - |xs|];
        RunJoin(s0, xs, ys[..i - |xs|]);
      }
    }
  }

  lemma GoOn(s0: State, actions: seq<Action>, s: State, c: CommandId, n: nat) returns (longer: seq<Action>)
    requires Run(s0, actions) == s && FailStopFrom(s0, actions) && UnderWay(s, c)
    ensures Run(s0, longer) == Run(s, Times(c, n)) && FailStopFrom(s0, longer) && actions <= longer
  {
    longer := actions + Times(c, n);
    KeepsGoing(s, c, n);
    RunJoin(s0, actions, Times(c, n));
    FailStopJoins(s0, actions, Times(c, n));
  }

  /** An undisturbed claim takes whatever is at the lease path. */
  lemma ClaimAlone(s: State, c: CommandId) returns (t: State)
    requires c in s.commands && s.commands[c].pc.RenameClaim? && LeasePath in s.files
    ensures t == Next(s, Advance(c, CALM))
    ensures t.files == (s.files - {LeasePath})[Claim(c) := s.files[LeasePath]]
    ensures t == s.(files := t.files, commands := s.commands[c := t.commands[c]])
    ensures var pc := s.commands[c].pc;
      t.commands[c] == s.commands[c].(pc := RenameEvidence(pc.t, pc.previous, pc.steps))
  {
    t := Next(s, Advance(c, CALM));
  }

  /** From its claim on, an undisturbed takeover files what it claimed under the name of the lease it validated,
      and prepares its successor. */
  lemma FileAlone(s: State, c: CommandId) returns (t: State)
    requires c in s.commands && s.commands[c].pc.RenameEvidence? && s.commands[c].pc.t.facts == ANY_FACTS
    requires Claim(c) in s.files && LeasePath !in s.files
    ensures t == Next(Next(Next(s, Advance(c, CALM)), Advance(c, CALM)), Advance(c, CALM))
    ensures var q := s.commands[c].pc.previous; var filed := Abandoned(q.leaseId, q.generation);
      && filed in t.files && t.files[filed] == s.files[Claim(c)] && LeasePath !in t.files
      && t.published == s.published && t.granted == s.granted && t.dead == s.dead
      && t.commands == s.commands[c := t.commands[c]] && t.commands[c].pc.OpenStaging?
      && t.commands[c].pc.p.record == Successor(s.commands[c].pc.t, q, c, s.commands[c].writer)
      && t.commands[c].pc.p.parent == Some(q)
  {
    var s1 := Next(s, Advance(c, CALM));
    var s2 := Next(s1, Advance(c, CALM));
    assert s2.commands[c].pc.WriteMeta? && s2.commands[c].pc.refusal.None?;
    t := Next(s2, Advance(c, CALM));
  }

  /** From its claim on, an undisturbed takeover by a live writer runs to its publication, and files whatever
      was at the lease path under the name of the lease it validated. */
  lemma TakeOverAlone(s0: State, actions: seq<Action>, s: State, c: CommandId) returns (longer: seq<Action>, t: State)
    requires Run(s0, actions) == s && FailStopFrom(s0, actions)
    requires c in s.commands && s.commands[c].writer !in s.dead && s.commands[c].pc.RenameClaim?
    requires s.commands[c].pc.t.facts == ANY_FACTS && LeasePath in s.files
    ensures Run(s0, longer) == t && FailStopFrom(s0, longer) && actions <= longer
    ensures var q := s.commands[c].pc.previous; var r := Successor(s.commands[c].pc.t, q, c, s.commands[c].writer);
      && t.published == s.published[c := Publication(r, Some(q))]
      && t.granted == s.granted + {c} && t.dead == s.dead
      && LeasePath in t.files && t.files[LeasePath] == Whole(r)
      && Abandoned(q.leaseId, q.generation) in t.files
      && t.files[Abandoned(q.leaseId, q.generation)] == s.files[LeasePath]
      && (forall d <- s.commands :: d in t.commands && (d != c ==> t.commands[d] == s.commands[d]))
  {
    longer := GoOn(s0, actions, s, c, 7);
    var q := s.commands[c].pc.previous;
    var u := ClaimAlone(s, c);
    var v := FileAlone(u, c);
    t := PublishAlone(v, c);
    Thrice(u, c);
    Thrice(v, c);
    SevenTimes(s, c);
    assert SameAt(v.files, t.files, Abandoned(q.leaseId, q.generation));
  }

  lemma OneMoreTime(s: State, c: CommandId, n: nat)
    ensures Run(s, Times(c, n + 1)) == Next(Run(s, Times(c, n)), Advance(c, CALM))
  {
    Snoc(s, Times(c, n), Advance(c, CALM));
    assert Times(c, n + 1) == Times(c, n) + [Advance(c, CALM)];
  }

  lemma Thrice(s: State, c: CommandId)
    ensures Run(s, Times(c, 3)) == Next(Next(Next(s, Advance(c, CALM)), Advance(c, CALM)), Advance(c, CALM))
  {
    assert Run(s, Times(c, 0)) == s;
    OneMoreTime(s, c, 0);
    OneMoreTime(s, c, 1);
    OneMoreTime(s, c, 2);
  }

  lemma SevenTimes(s: State, c: CommandId)
    ensures Run(s, Times(c, 7)) == Run(Run(Next(s, Advance(c, CALM)), Times(c, 3)), Times(c, 3))
  {
    OneMoreTime(s, c, 0);
    assert Times(c, 7) == Times(c, 1) + (Times(c, 3) + Times(c, 3));
    RunJoin(s, Times(c, 1), Times(c, 3) + Times(c, 3));
    RunJoin(Next(s, Advance(c, CALM)), Times(c, 3), Times(c, 3));
  }

  const DEAD_WRITER := WriterId("first", ProcessIdentity(1, "a"))
  const FIRST_HEIR := WriterId("second", ProcessIdentity(2, "b"))
  const SECOND_HEIR := WriterId("third", ProcessIdentity(3, "c"))

  const LAPSED := Start(0, DEAD_WRITER, Acquire(ROOT_OPTIONS.(ttlSeconds := Some(0))), Some(ANY_FACTS), 0)

  /** A writer acquires a lease that lapses at once, and dies. */
  lemma WriterDies() returns (actions: seq<Action>, s: State, root: LeaseRecord)
    ensures Run(INITIAL, actions) == s && FailStopFrom(INITIAL, actions)
    ensures s.dead == {DEAD_WRITER} && LeasePath in s.files && s.files[LeasePath] == Whole(root)
    ensures root.leaseId == 0 && root.generation == 1 && root.expiresAt == 0 && root.writer == DEAD_WRITER
    ensures root.repository == Repository("repo", "tree", None)
    ensures s.commands.Keys == {0} && s.commands[0].writer == DEAD_WRITER
  {
    var s1 := Next(INITIAL, LAPSED);
    root := s1.commands[0].pc.p.record;
    var t := PublishAlone(s1, 0);
    actions := WriterRuns();
    s := Next(t, Kill(DEAD_WRITER));
  }

  lemma WriterRuns() returns (actions: seq<Action>)
    ensures Run(INITIAL, actions) == Next(Next(Next(Next(Next(INITIAL, LAPSED),
      Advance(0, CALM)), Advance(0, CALM)), Advance(0, CALM)), Kill(DEAD_WRITER))
    ensures FailStopFrom(INITIAL, actions)
  {
    var s, t;
    actions, s := StepOn(INITIAL, [], INITIAL, LAPSED);
    actions := GoOn(INITIAL, actions, s, 0, 3);
    Thrice(s, 0);
    actions, t := StepOn(INITIAL, actions, Run(s, Times(0, 3)), Kill(DEAD_WRITER));
  }

  function Heir(c: CommandId, heir: WriterId): Action {
    Start(c, heir, Takeover(ROOT_OPTIONS), Some(ANY_FACTS), 0)
  }

  predicate LapsedAt(s: State, root: LeaseRecord) {
    && s.dead == {DEAD_WRITER} && LeasePath in s.files && s.files[LeasePath] == Whole(root)
    && root.expiresAt == 0 && root.writer == DEAD_WRITER && root.repository == Repository("repo", "tree", None)
  }

  /** A takeover by a live newcomer validates that lease. */
  lemma HeirAlone(s: State, root: LeaseRecord, c: CommandId, heir: WriterId) returns (s1: State, s2: State, t: State)
    requires LapsedAt(s, root) && c !in s.commands && heir != DEAD_WRITER && Idle(s, heir)
    ensures s1 == Next(s, Heir(c, heir)) && s2 == Next(s1, Advance(c, CALM)) && t == Next(s2, Advance(c, CALM))
    ensures FailStop(s, Heir(c, heir)) && FailStop(s1, Advance(c, CALM)) && FailStop(s2, Advance(c, CALM))
    ensures t.dead == s.dead && t.files == s.files && c in t.commands && t.commands == s.commands[c := t.commands[c]]
    ensures t.commands[c].writer == heir && t.commands[c].pc.RenameClaim?
    ensures t.commands[c].pc.previous == root && t.commands[c].pc.t.facts == ANY_FACTS
  {
    s1 := Next(s, Heir(c, heir));
    assert s1.commands[c].pc == ReadIncumbent(TakeoverContext(ROOT_OPTIONS, ANY_FACTS, 0));
    s2 := Next(s1, Advance(c, CALM));
    assert s2.commands[c].pc.ProbeWriter?;
    t := Next(s2, Advance(c, CALM));
  }

  lemma HeirValidates(actions: seq<Action>, s: State, root: LeaseRecord, c: CommandId, heir: WriterId)
    returns (longer: seq<Action>, t: State)
    requires Run(INITIAL, actions) == s && FailStopFrom(INITIAL, actions)
    requires LapsedAt(s, root) && c !in s.commands && heir != DEAD_WRITER && Idle(s, heir)
    ensures Run(INITIAL, longer) == t && FailStopFrom(INITIAL, longer)
    ensures t.dead == s.dead && t.files == s.files && c in t.commands && t.commands == s.commands[c := t.commands[c]]
    ensures t.commands[c].writer == heir && t.commands[c].pc.RenameClaim?
    ensures t.commands[c].pc.previous == root && t.commands[c].pc.t.facts == ANY_FACTS
  {
    var s1, s2, s3 := HeirAlone(s, root, c, heir);
    longer := ThreeSteps(actions, s, s1, s2, Heir(c, heir), Advance(c, CALM), Advance(c, CALM));
    t := s3;
  }

  lemma ThreeSteps(actions: seq<Action>, s: State, s1: State, s2: State, a: Action, b: Action, d: Action)
    returns (longer: seq<Action>)
    requires Run(INITIAL, actions) == s && FailStopFrom(INITIAL, actions)
    requires s1 == Next(s, a) && s2 == Next(s1, b) && FailStop(s, a) && FailStop(s1, b) && FailStop(s2, d)
    ensures Run(INITIAL, longer) == Next(s2, d) && FailStopFrom(INITIAL, longer)
  {
    var t;
    longer, t := StepOn(INITIAL, actions, s, a);
    longer, t := StepOn(INITIAL, longer, s1, b);
    longer, t := StepOn(INITIAL, longer, s2, d);
  }

  /** Without the fourth assumption both properties fail. In a fail-stop run with truthful probes two
      takeovers validate one abandoned lease; the second claims the first one's successor, so two
      live processes hold granted leases and the evidence of the abandoned lease is overwritten. */
  lemma UnvalidatedClaimBreaksBoth()
    ensures exists actions, longer, l: LeaseId, m: LeaseId ::
      && FailStopFrom(INITIAL, actions) && FailStopFrom(INITIAL, longer) && actions <= longer
      && l != m && LiveHolder(Run(INITIAL, longer), l) && LiveHolder(Run(INITIAL, longer), m)
      && !EvidenceKept(Run(INITIAL, actions).files, Run(INITIAL, longer).files)
  {
    var before, dead, root := WriterDies();
    var one, s1 := HeirValidates(before, dead, root, 1, FIRST_HEIR);
    var actions, s := HeirValidates(one, s1, root, 2, SECOND_HEIR);
    var middle, t := TakeOverAlone(INITIAL, actions, s, 1);
    var longer, u := TakeOverAlone(INITIAL, middle, t, 2);
    var n := Abandoned(0, 1);
    assert t.files[n] == Whole(root) && u.files[n] == t.files[LeasePath];
    assert LiveHolder(u, 1) && LiveHolder(u, 2);
  }
}
