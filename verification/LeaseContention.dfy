/** Contended acquire: while nobody removes the lease, any number of racing acquires has one winner,
    and every loser can name what it lost to. */
module LeaseContention {
  import opened Lease
  import opened LeaseProtocol
  import opened LeaseSafety

  // At most one winner, in every run in which nothing takes the lease away: whatever fails, whoever dies, and
  // whatever else is tried.

  /** The action moves the lease away from the lease path. */
  predicate Removes(s: State, a: Action) {
    a.Advance? && a.c in s.commands && (s.commands[a.c].pc.RenameReleased? || s.commands[a.c].pc.RenameClaim?)
    && LeasePath in s.files && !a.env.fault
  }

  predicate NothingRemoved(actions: seq<Action>) {
    forall i | 0 <= i < |actions| :: !Removes(Run(INITIAL, actions[..i]), actions[i])
  }

  predicate OnePublished(s: State) {
    && (s.published.Keys != {} ==> LeasePath in s.files)
    && (forall l <- s.published, m <- s.published :: l == m)
  }

  /** Publishing needs a free path, and no other step makes the path free or publishes. */
  lemma PublishNeedsFreePath(s: State, c: CommandId, env: Environment)
    requires c in s.commands && !Removes(s, Advance(c, env))
    requires s.commands[c].pc.LinkStaging? ==> s.commands[c].pc.p.record.leaseId == c
    ensures var t := AdvanceCommand(s, c, env);
      && (LeasePath in s.files ==> LeasePath in t.files)
      && (t.published == s.published
        || (LeasePath !in s.files && LeasePath in t.files && t.published.Keys == s.published.Keys + {c}))
  {
  }

  lemma StepKeepsOnePublished(s: State, a: Action)
    requires Sound(s) && OnePublished(s) && !Removes(s, a)
    ensures OnePublished(Next(s, a))
  {
    if a.Advance? && a.c in s.commands {
      assert CommandOk(s.files, s.published, a.c, s.commands[a.c]);
      PublishNeedsFreePath(s, a.c, a.env);
      var t := AdvanceCommand(s, a.c, a.env);
      assert forall l :: l in t.published <==> l in t.published.Keys;
      assert forall l :: l in s.published <==> l in s.published.Keys;
    }
  }

  lemma {:induction false} RunKeepsOnePublished(actions: seq<Action>)
    requires NothingRemoved(actions)
    ensures OnePublished(Run(INITIAL, actions))
  {
    if actions != [] {
      var n := |actions| - 1;
      forall i | 0 <= i < n ensures !Removes(Run(INITIAL, actions[..n][..i]), actions[..n][i]) {
        assert actions[..n][..i] == actions[..i];
      }
      RunKeepsOnePublished(actions[..n]);
      RunIsSound(actions[..n]);
      assert !Removes(Run(INITIAL, actions[..n]), actions[n]);
      StepKeepsOnePublished(Run(INITIAL, actions[..n]), actions[n]);
    }
  }

  predicate AcquireIn(s: State, c: CommandId) {
    c in s.commands && s.commands[c].request.Acquire?
  }

  predicate Succeeded(s: State, c: CommandId) {
    AcquireIn(s, c) && s.commands[c].pc.Done? && s.commands[c].pc.result.Granted?
  }

  lemma SuccessIsPublished(s: State, c: CommandId)
    requires Sound(s) && Succeeded(s, c)
    ensures c in s.published
  {
    assert CommandOk(s.files, s.published, c, s.commands[c]);
  }

  /** At most one winner: in a run in which nothing takes the lease away, however many acquires race, fail or die,
      and whatever heartbeats and takeovers are tried beside them, no two acquires succeed. */
  lemma AtMostOneWinner(actions: seq<Action>, c: CommandId, d: CommandId)
    requires NothingRemoved(actions)
    requires Succeeded(Run(INITIAL, actions), c) && Succeeded(Run(INITIAL, actions), d)
    ensures c == d
  {
    var s := Run(INITIAL, actions);
    RunIsSound(actions);
    RunKeepsOnePublished(actions);
    SuccessIsPublished(s, c);
    SuccessIsPublished(s, d);
  }

  // Exactly one winner, as soon as one racer meets no I/O error.

  /** The acquires that enter the race: those that pass their own planning. */
  function Racers(actions: seq<Action>): set<CommandId> {
    if actions == [] then {}
    else
      var n := |actions| - 1;
      Racers(actions[..n]) + if Enters(Run(INITIAL, actions[..n]), actions[n]) then {actions[n].c} else {}
  }

  predicate Enters(s: State, a: Action) {
    match a
    case Start(c, writer, Acquire(options), facts, now) =>
      c !in s.commands && PlanAcquire(options, facts, c, writer, now).Success?
    case _ => false
  }

  /** The commands of which a file operation has failed. */
  function Faulted(actions: seq<Action>): set<CommandId> {
    if actions == [] then {}
    else
      var n := |actions| - 1;
      Faulted(actions[..n]) + if actions[n].Advance? && actions[n].env.fault then {actions[n].c} else {}
  }

  predicate Losing(reason: ReasonCode) {
    reason == WriterConflict || reason == ExpiredUnreconciled
  }

  /** The command has linked its record to the lease path. */
  predicate Won(pc: Pc) {
    match pc
    case UnlinkStaging(_, outcome) => outcome.Linked?
    case Done(result) => result.Granted?
    case _ => false
  }

  /** A racer of which no operation failed is on its way to win or to name the lease it lost to. */
  predicate RacerOk(files: map<Name, Content>, pub: Publications, c: CommandId, cmd: Command, clean: bool) {
    && cmd.request.Acquire? && (PublishPc(cmd.pc) || cmd.pc.Done?)
    && (c in pub <==> Won(cmd.pc))
    && (clean ==>
          && (cmd.pc.UnlinkStaging? ==> !cmd.pc.outcome.Broken?)
          && (cmd.pc.ReadHolder? || cmd.pc.UnlinkStaging? || cmd.pc.Done? ==> LeasePath in files)
          && (cmd.pc.Done? && cmd.pc.result.Refused? ==> Losing(cmd.pc.result.reason)))
  }

  /** Any other command has published nothing: an acquire that was refused in its planning, a heartbeat, a release,
      or a takeover that has not claimed the lease. */
  predicate BystanderOk(pub: Publications, c: CommandId, cmd: Command) {
    c !in pub && !PublishPc(cmd.pc) && !ClaimedPc(cmd.pc)
  }

  predicate EntrantOk(s: State, racers: set<CommandId>, faulted: set<CommandId>, c: CommandId)
    requires c in s.commands
  {
    if c in racers then RacerOk(s.files, s.published, c, s.commands[c], c !in faulted)
    else BystanderOk(s.published, c, s.commands[c])
  }

  ghost predicate Race(s: State, racers: set<CommandId>, faulted: set<CommandId>) {
    racers <= s.commands.Keys && forall c <- s.commands :: EntrantOk(s, racers, faulted, c)
  }

  lemma RacerStages(s: State, c: CommandId, env: Environment, clean: bool)
    requires c in s.commands && (s.commands[c].pc.OpenStaging? || s.commands[c].pc.WriteStaging?)
    requires RacerOk(s.files, s.published, c, s.commands[c], clean)
    requires CommandOk(s.files, s.published, c, s.commands[c])
    requires LeasePath in s.files ==> s.files[LeasePath].Whole?
    ensures var t := AdvancePublish(s, c, env); RacerOk(t.files, t.published, c, t.commands[c], clean && !env.fault)
  {
  }

  lemma RacerLinks(s: State, c: CommandId, env: Environment, clean: bool)
    requires c in s.commands && s.commands[c].pc.LinkStaging?
    requires RacerOk(s.files, s.published, c, s.commands[c], clean)
    requires CommandOk(s.files, s.published, c, s.commands[c])
    requires LeasePath in s.files ==> s.files[LeasePath].Whole?
    ensures var t := AdvancePublish(s, c, env); RacerOk(t.files, t.published, c, t.commands[c], clean && !env.fault)
  {
  }

  lemma RacerReturns(s: State, c: CommandId, env: Environment, clean: bool)
    requires c in s.commands && (s.commands[c].pc.UnlinkStaging? || s.commands[c].pc.ReadHolder?)
    requires RacerOk(s.files, s.published, c, s.commands[c], clean)
    requires CommandOk(s.files, s.published, c, s.commands[c])
    requires LeasePath in s.files ==> s.files[LeasePath].Whole?
    ensures var t := AdvancePublish(s, c, env); RacerOk(t.files, t.published, c, t.commands[c], clean && !env.fault)
  {
  }

  lemma RacerSteps(s: State, c: CommandId, env: Environment, clean: bool)
    requires c in s.commands && PublishPc(s.commands[c].pc)
    requires RacerOk(s.files, s.published, c, s.commands[c], clean)
    requires CommandOk(s.files, s.published, c, s.commands[c])
    requires LeasePath in s.files ==> s.files[LeasePath].Whole?
    ensures var t := AdvancePublish(s, c, env); RacerOk(t.files, t.published, c, t.commands[c], clean && !env.fault)
  {
    if s.commands[c].pc.OpenStaging? || s.commands[c].pc.WriteStaging? { RacerStages(s, c, env, clean); }
    else if s.commands[c].pc.LinkStaging? { RacerLinks(s, c, env, clean); }
    else { RacerReturns(s, c, env, clean); }
  }

  lemma OwnerStandsBy(s: State, c: CommandId, env: Environment)
    requires c in s.commands && BystanderOk(s.published, c, s.commands[c]) && OwnerPc(s.commands[c].pc)
    ensures var t := AdvanceOwner(s, c, env); BystanderOk(t.published, c, t.commands[c])
  {
  }

  lemma TakeoverStandsBy(s: State, c: CommandId, env: Environment)
    requires c in s.commands && BystanderOk(s.published, c, s.commands[c]) && ValidatePc(s.commands[c].pc)
    requires !Removes(s, Advance(c, env))
    ensures var t := AdvanceTakeover(s, c, env); BystanderOk(t.published, c, t.commands[c])
  {
  }

  lemma BystanderSteps(s: State, c: CommandId, env: Environment)
    requires c in s.commands && BystanderOk(s.published, c, s.commands[c]) && !Removes(s, Advance(c, env))
    ensures var t := AdvanceCommand(s, c, env); BystanderOk(t.published, c, t.commands[c])
  {
    if OwnerPc(s.commands[c].pc) { OwnerStandsBy(s, c, env); }
    else if ValidatePc(s.commands[c].pc) { TakeoverStandsBy(s, c, env); }
  }

  /** A step leaves the standing of the others alone. */
  lemma OtherStands(s: State, t: State, racers: set<CommandId>, faulted: set<CommandId>, more: set<CommandId>,
                    d: CommandId)
    requires d in s.commands && d in t.commands && t.commands[d] == s.commands[d] && EntrantOk(s, racers, faulted, d)
    requires (d in t.published <==> d in s.published) && (LeasePath in s.files ==> LeasePath in t.files)
    requires faulted <= more
    ensures EntrantOk(t, racers, more, d)
  {
  }

  lemma AdvanceKeepsRace(s: State, racers: set<CommandId>, faulted: set<CommandId>, c: CommandId, env: Environment)
    requires Sound(s) && Race(s, racers, faulted) && c in s.commands && !Removes(s, Advance(c, env))
    ensures Race(AdvanceCommand(s, c, env), racers, faulted + if env.fault then {c} else {})
  {
    var t, more := AdvanceCommand(s, c, env), faulted + if env.fault then {c} else {};
    assert CommandOk(s.files, s.published, c, s.commands[c]) && EntrantOk(s, racers, faulted, c);
    PublishNeedsFreePath(s, c, env);
    AdvanceTouches(s, c, env);
    if LeasePath in s.files { assert Place(LeasePath); }
    if c !in racers { BystanderSteps(s, c, env); }
    else if PublishPc(s.commands[c].pc) { RacerSteps(s, c, env, c !in faulted); }
    forall d <- t.commands ensures EntrantOk(t, racers, more, d) {
      if d != c {
        assert d in t.published <==> d in t.published.Keys;
        OtherStands(s, t, racers, faulted, more, d);
      }
    }
  }

  lemma StartKeepsRace(s: State, racers: set<CommandId>, faulted: set<CommandId>, a: Action)
    requires Sound(s) && Race(s, racers, faulted) && a.Start?
    ensures Race(Next(s, a), if Enters(s, a) then racers + {a.c} else racers, faulted)
  {
    var t, more := Next(s, a), if Enters(s, a) then racers + {a.c} else racers;
    forall d <- t.commands ensures EntrantOk(t, more, faulted, d) {
      if d in s.commands { assert EntrantOk(s, racers, faulted, d); } else { assert d !in s.published.Keys; }
    }
  }

  lemma {:induction false} RunIsRace(actions: seq<Action>)
    requires NothingRemoved(actions)
    ensures Race(Run(INITIAL, actions), Racers(actions), Faulted(actions))
  {
    if actions != [] {
      var n := |actions| - 1;
      var s, a := Run(INITIAL, actions[..n]), actions[n];
      var racers, faulted := Racers(actions[..n]), Faulted(actions[..n]);
      forall i | 0 <= i < n ensures actions[..n][..i] == actions[..i] {}
      RunIsRace(actions[..n]);
      RunIsSound(actions[..n]);
      match a {
        case Advance(c, env) =>
          assert !Removes(s, a);
          if c in s.commands { AdvanceKeepsRace(s, racers, faulted, c, env); }
          else { UnknownKeepsRace(s, racers, faulted, c); }
        case Start(_, _, _, _, _) => StartKeepsRace(s, racers, faulted, a);
        case Kill(_) =>
          forall d <- s.commands ensures EntrantOk(Next(s, a), racers, faulted, d) {
            assert EntrantOk(s, racers, faulted, d);
          }
      }
    }
  }

  lemma UnknownKeepsRace(s: State, racers: set<CommandId>, faulted: set<CommandId>, c: CommandId)
    requires Race(s, racers, faulted) && c !in s.commands
    ensures Race(s, racers, faulted + {c})
  {
    forall d <- s.commands ensures EntrantOk(s, racers, faulted + {c}, d) { assert EntrantOk(s, racers, faulted, d); }
  }

  /** Exactly one winner: when nothing takes the lease away - whatever else is started, refused, faulty or killed -
      every racer that loses without a failing call reports a conflict or an expired lease, never unaccountable state;
      and once every racer has returned, one of them at least without a failing call, exactly one command has
      succeeded, a racer. */
  lemma ExactlyOneWinner(actions: seq<Action>)
    requires NothingRemoved(actions)
    ensures var s, racers, faulted := Run(INITIAL, actions), Racers(actions), Faulted(actions);
      && (forall c <- racers :: AcquireIn(s, c) && (s.commands[c].pc.Done? && c !in faulted ==>
            Succeeded(s, c) || Losing(s.commands[c].pc.result.reason)))
      && (racers - faulted != {} && (forall c <- racers :: s.commands[c].pc.Done?) ==>
            exists c <- racers :: Succeeded(s, c) && forall d :: Succeeded(s, d) ==> d == c)
  {
    var s, racers, faulted := Run(INITIAL, actions), Racers(actions), Faulted(actions);
    RunIsRace(actions);
    RunIsSound(actions);
    forall c <- racers ensures RacerOk(s.files, s.published, c, s.commands[c], c !in faulted) {
      assert EntrantOk(s, racers, faulted, c);
    }
    if racers - faulted != {} && forall c <- racers :: s.commands[c].pc.Done? {
      var c := SomeoneWins(s, racers, faulted);
      forall d | Succeeded(s, d) ensures d == c { AtMostOneWinner(actions, d, c); }
    }
  }

  lemma SomeoneWins(s: State, racers: set<CommandId>, faulted: set<CommandId>) returns (winner: CommandId)
    requires Sound(s) && Race(s, racers, faulted) && racers - faulted != {}
    requires forall c <- racers :: s.commands[c].pc.Done?
    ensures winner in racers && Succeeded(s, winner)
  {
    var c :| c in racers - faulted;
    assert EntrantOk(s, racers, faulted, c) && Place(LeasePath);
    winner := s.files[LeasePath].record.leaseId;
    assert winner in s.published.Keys;
    assert EntrantOk(s, racers, faulted, winner);
  }
}
