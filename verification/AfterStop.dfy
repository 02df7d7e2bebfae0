/** When a heartbeat can survive Stop (app/app.go): the exact condition at the moment Stop begins to wait
    for the loops, in terms of what still runs. */
module AfterStop {
  import opened Bytes
  import opened RunLog
  import opened Supervisor

  // ---------- A thread left alone comes to rest ----------

  function AtRank(at: At): nat {
    match at
    case Return(_) => 0
    case Revive => 1
    case Register => 2
    case Load(_) => 3
    case Login(_) => 4
    case Connect(_) => 5
    case Wait(_) => 6
    case Cleanup(_) => 7
    case Restore(_) => 8
    case Dwell => 9
    case HangUp => 10
    case Cut | Ask => 11
    case Halt => 12
    case Check => 13
  }

  function SiteRank(site: Site): nat {
    match site
    case TickReconnect => 3
    case TickReboot | TimedCycle => 2
    case TickCycle | TimedReboot => 1
    case _ => 0
  }

  /** Bounds the successful moves a loop needs to become idle. */
  function PcRank(pc: Pc): nat {
    match pc
    case Announce(available) => if available then 1 else 100
    case Restored => 2
    case Want(site) => 20 * SiteRank(site) + 15
    case In(site, at) => 20 * SiteRank(site) + AtRank(at)
    case _ => 0
  }

  predicate Working(pc: Pc) {
    pc.Announce? || pc.Restored? || pc.Want? || pc.In?
  }

  /** Where success of every call leads to a running heartbeat; debounced says that a power cycle would
      be. */
  predicate Hopeful(cfg: Config, heartbeat: bool, debounced: bool, pc: Pc) {
    match pc
    case Idle => heartbeat
    case Restored => heartbeat
    case Announce(available) => heartbeat || (!available && cfg.restartOnError)
    case Want(site) => site == TickReconnect || site == TickReboot || site == TimedReboot
                       || (site == TimedCycle && !debounced)
    case In(site, at) => HopefulAt(heartbeat, debounced, site, at)
    case _ => false
  }

  predicate HopefulAt(heartbeat: bool, debounced: bool, site: Site, at: At) {
    match at
    case Check => site == TimedCycle && !debounced
    case Return(outcome) =>
      if outcome == Recovered then heartbeat || site == TickReconnect else outcome == Refused && site == TimedCycle
    case Wait(slot) => slot < SLOTS
    case Cleanup(slot) => slot + 1 < SLOTS
    case Restore(aborted) => !aborted
    case _ => true
  }

  predicate Turned(cfg: Config, s: State, now: int) {
    !Refusing(cfg) && Debouncing(s, now)
  }

  /** What a loop needs in order to move. */
  predicate Free(s: State, t: Thread) {
    && !t.Main?
    && match PcOf(s, t)
       case Want(site) => Owner(site) == t && s.resetMu == None
       case In(site, _) => Owner(site) == t && s.resetMu == Some(t)
       case _ => s.resetMu == None
  }

  predicate OnlyMoved(s: State, u: State, t: Thread) {
    && u.main == s.main && u.stopping == s.stopping
    && (!t.Health? ==> u.health == s.health) && (!t.Periodic? ==> u.periodic == s.periodic)
  }

  lemma NextRanks(cfg: Config, s: State, t: Thread, p: Procedure, at: At, now: int)
    requires !at.Return?
    ensures AtRank(Next(cfg, s, t, p, at, true, now)) < AtRank(at)
  {
  }

  lemma NextHopes(cfg: Config, s: State, t: Thread, site: Site, at: At, now: int, heartbeat: bool, debounced: bool)
    requires !at.Return? && HopefulAt(s.heartbeat, Turned(cfg, s, now), site, at) && Owner(site) != Main
    requires at.Revive? ==> heartbeat
    ensures HopefulAt(heartbeat, debounced, site, Next(cfg, s, t, ProcedureAt(site), at, true, now))
  {
  }

  lemma Revives(cfg: Config, s: State, site: Site, now: int)
    ensures Called(cfg, s, site, Revive, true, now).heartbeat
  {
  }

  lemma MoveInside(cfg: Config, s: State, t: Thread, site: Site, at: At, now: int)
    requires PcOf(s, t) == In(site, at) && !at.Return? && !t.Main?
    ensures var u := Move(cfg, s, t, true, now);
            && PcOf(u, t) == In(site, Next(cfg, s, t, ProcedureAt(site), at, true, now))
            && OnlyMoved(s, u, t) && u.resetMu == s.resetMu && (at.Revive? ==> u.heartbeat)
  {
    hide Called, Next, ProcedureAt, Offline, Stale, SoftFailed, Inside, Call, Goto, OnlyMoved;
    CalledFrame(cfg, s, site, at, true, now);
    Revives(cfg, s, site, now);
    GoesOnly(s, Called(cfg, s, site, at, true, now), t, In(site, Next(cfg, s, t, ProcedureAt(site), at, true, now)));
  }

  lemma GoesOnly(s: State, u: State, t: Thread, pc: Pc)
    requires u.main == s.main && u.health == s.health && u.periodic == s.periodic && u.stopping == s.stopping
    requires !t.Main?
    ensures var v := Goto(u, t, pc);
            PcOf(v, t) == pc && OnlyMoved(s, v, t) && v.resetMu == u.resetMu && v.heartbeat == u.heartbeat
  {
  }

  /** One successful move inside a procedure. */
  lemma InsideStep(cfg: Config, s: State, t: Thread, site: Site, at: At, now: int)
    requires Free(s, t) && PcOf(s, t) == In(site, at) && !at.Return?
    ensures Progresses(cfg, s, Move(cfg, s, t, true, now), t, now)
  {
    MoveInside(cfg, s, t, site, at, now);
    var u := Move(cfg, s, t, true, now);
    NextRanks(cfg, s, t, ProcedureAt(site), at, now);
    if HopefulAt(s.heartbeat, Turned(cfg, s, now), site, at) {
      NextHopes(cfg, s, t, site, at, now, u.heartbeat, Turned(cfg, u, now));
    }
    hide Move, Next, HopefulAt, AtRank, Turned;
  }

  /** A loop has come closer to rest, alone, and has kept its hopes. */
  predicate Progresses(cfg: Config, s: State, u: State, t: Thread, now: int) {
    && Free(u, t) && OnlyMoved(s, u, t) && (Working(PcOf(u, t)) || PcOf(u, t) == Idle)
    && PcRank(PcOf(u, t)) < PcRank(PcOf(s, t))
    && (Hopeful(cfg, s.heartbeat, Turned(cfg, s, now), PcOf(s, t)) ==>
          Hopeful(cfg, u.heartbeat, Turned(cfg, u, now), PcOf(u, t)))
  }

  /** What the caller of a procedure continues with is closer to rest, and keeps its hopes. */
  lemma AfterProgresses(cfg: Config, site: Site, outcome: Outcome, heartbeat: bool, debounced: bool, later: bool)
    requires Owner(site) != Main
    ensures var pc := After(cfg, site, outcome);
            && PcRank(pc) < PcRank(In(site, Return(outcome))) && (Working(pc) || pc == Idle)
            && (pc.Want? ==> Owner(pc.site) == Owner(site)) && !pc.In?
            && (HopefulAt(heartbeat, debounced, site, Return(outcome)) ==> Hopeful(cfg, heartbeat, later, pc))
  {
  }

  /** The return of a procedure, as a loop sees it. */
  lemma ReturnStep(cfg: Config, s: State, t: Thread, site: Site, outcome: Outcome, now: int)
    requires Free(s, t) && PcOf(s, t) == In(site, Return(outcome))
    ensures Progresses(cfg, s, Move(cfg, s, t, true, now), t, now)
  {
    hide Turned, Unlock, Launches, After, PcRank, HopefulAt, Owner, Working;
    UnlockPcs(cfg, s, t, site, outcome);
    LaunchIsMain(cfg, site, outcome);
    AfterProgresses(cfg, site, outcome, s.heartbeat, Turned(cfg, s, now),
      Turned(cfg, Unlock(cfg, s, t, site, outcome), now));
  }

  /** A loop that obtains the mutex. */
  lemma WantStep(cfg: Config, s: State, t: Thread, now: int)
    requires Free(s, t) && PcOf(s, t).Want?
    ensures Progresses(cfg, s, Move(cfg, s, t, true, now), t, now)
  {
    hide Refusing;
  }

  /** A move of the health loop between its procedures. */
  lemma BetweenStep(cfg: Config, s: State, now: int)
    requires Free(s, Health) && (s.health.Announce? || s.health.Restored?)
    ensures Progresses(cfg, s, Move(cfg, s, Health, true, now), Health, now)
  {
    hide Turned;
  }

  lemma DrainStep(cfg: Config, s: State, t: Thread, now: int)
    requires Free(s, t) && Working(PcOf(s, t)) && (PcOf(s, t).Announce? || PcOf(s, t).Restored? ==> t.Health?)
    ensures Progresses(cfg, s, Move(cfg, s, t, true, now), t, now)
  {
    hide Move, Progresses;
    match PcOf(s, t)
    case In(site, at) =>
      if at.Return? {
        ReturnStep(cfg, s, t, site, at.outcome, now);
      } else {
        InsideStep(cfg, s, t, site, at, now);
      }
    case Want(_) => WantStep(cfg, s, t, now);
    case _ => BetweenStep(cfg, s, now);
  }

  /** A loop that has or can get the mutex comes to rest by its own successful moves. */
  lemma {:induction false} Drain(cfg: Config, actions: seq<Action>, t: Thread, now: int) returns (run: seq<Action>)
    requires Free(Execute(cfg, actions), t) && Working(PcOf(Execute(cfg, actions), t))
    ensures actions <= run
    ensures var s, u := Execute(cfg, actions), Execute(cfg, run);
            && OnlyMoved(s, u, t) && PcOf(u, t) == Idle && u.resetMu == None
            && (Hopeful(cfg, s.heartbeat, Turned(cfg, s, now), PcOf(s, t)) ==> u.heartbeat)
    decreases PcRank(PcOf(Execute(cfg, actions), t))
  {
    hide Move, Execute, Hopeful, Turned;
    RunSafety(cfg, actions);
    var s := Execute(cfg, actions);
    WhoseStep(cfg, s, t);
    DrainStep(cfg, s, t, now);
    var next := actions + [Act(t, true, now)];
    ExecuteOne(cfg, actions, Act(t, true, now));
    if PcOf(Execute(cfg, next), t) == Idle {
      run := next;
      IdleHope(cfg, Execute(cfg, next), now);
    } else {
      run := Drain(cfg, next, t, now);
    }
  }

  lemma IdleHope(cfg: Config, s: State, now: int)
    ensures Hopeful(cfg, s.heartbeat, Turned(cfg, s, now), Idle) == s.heartbeat
  {
  }

  // ---------- Stop waits for the loops ----------

  /** Main waits in Stop, and nobody is inside a procedure. */
  predicate Calm(s: State) {
    s.main == Joining && s.stopping && s.resetMu == None
  }

  predicate Resting(pc: Pc) {
    pc == Idle || Over(pc)
  }

  /** While main waits in Stop, a loop is free if it holds the mutex or nobody does. */
  lemma JoiningFree(cfg: Config, actions: seq<Action>, t: Thread)
    requires Execute(cfg, actions).main == Joining && !t.Main?
    ensures var s := Execute(cfg, actions);
            && s.stopping && s.resetMu != Some(Main)
            && (s.resetMu == None || s.resetMu == Some(t) ==> Free(s, t))
            && (Working(PcOf(s, t)) || Resting(PcOf(s, t)))
            && (s.resetMu == Some(t) ==> Working(PcOf(s, t)))
  {
    RunSafety(cfg, actions);
    hide Execute, Coherent, Inner, Inside, HealthReason;
  }

  /** A loop that is free comes to rest. */
  lemma Settle(cfg: Config, actions: seq<Action>, t: Thread, now: int) returns (run: seq<Action>)
    requires Execute(cfg, actions).main == Joining && !t.Main?
    requires Execute(cfg, actions).resetMu == None || Execute(cfg, actions).resetMu == Some(t)
    ensures actions <= run
    ensures var s, u := Execute(cfg, actions), Execute(cfg, run);
            && OnlyMoved(s, u, t) && Calm(u) && Resting(PcOf(u, t)) && Over(PcOf(u, t)) == Over(PcOf(s, t))
            && (Over(PcOf(s, t)) ==> u == s)
            && (Hopeful(cfg, s.heartbeat, Turned(cfg, s, now), PcOf(s, t)) ==> u.heartbeat)
  {
    JoiningFree(cfg, actions, t);
    hide Execute, Hopeful, Turned;
    if Working(PcOf(Execute(cfg, actions), t)) {
      run := Drain(cfg, actions, t, now);
    } else {
      run := actions;
      RestHope(cfg, Execute(cfg, actions), t, now);
    }
  }

  lemma RestHope(cfg: Config, s: State, t: Thread, now: int)
    requires Resting(PcOf(s, t))
    ensures Hopeful(cfg, s.heartbeat, Turned(cfg, s, now), PcOf(s, t)) ==> s.heartbeat
  {
  }

  /** Both loops come to rest, the holder of the mutex first. */
  lemma SettleBoth(cfg: Config, actions: seq<Action>) returns (run: seq<Action>)
    requires Execute(cfg, actions).main == Joining
    ensures actions <= run
    ensures var s, u := Execute(cfg, actions), Execute(cfg, run);
            && Calm(u) && Resting(u.health) && Resting(u.periodic)
            && Over(u.health) == Over(s.health) && Over(u.periodic) == Over(s.periodic)
            && (s.heartbeat && Over(s.periodic) && (Over(s.health) || !cfg.restartOnError) ==> u.heartbeat)
  {
    var s := Execute(cfg, actions);
    hide Execute, Hopeful, Turned;
    JoiningFree(cfg, actions, Health);
    if s.heartbeat && !cfg.restartOnError {
      QuietHealth(cfg, actions, 0);
    }
    if s.resetMu == Some(Periodic) {
      var first := Settle(cfg, actions, Periodic, 0);
      run := Settle(cfg, first, Health, 0);
      JoiningFree(cfg, actions, Periodic);
    } else {
      assert s.resetMu.Some? ==> s.resetMu.value.Main? || s.resetMu.value.Health?;
      var first := Settle(cfg, actions, Health, 0);
      run := Settle(cfg, first, Periodic, 0);
    }
  }

  /** Without restart-on-error the health loop is never inside a procedure, and keeps a heartbeat. */
  lemma QuietHealth(cfg: Config, actions: seq<Action>, now: int)
    requires Execute(cfg, actions).main == Joining && Execute(cfg, actions).heartbeat && !cfg.restartOnError
    ensures var s := Execute(cfg, actions);
            Over(s.health) || Hopeful(cfg, s.heartbeat, Turned(cfg, s, now), s.health)
  {
    RunSafety(cfg, actions);
    JoiningFree(cfg, actions, Health);
    hide Execute, Coherent, Inner, Inside;
  }

  // ---------- One more recovery ----------

  /** The periodic loop at rest ticks once more, at a time when no power cycle is debounced. */
  lemma PeriodicTicks(cfg: Config, actions: seq<Action>) returns (run: seq<Action>)
    requires var s := Execute(cfg, actions); Calm(s) && s.periodic == Idle && Resting(s.health)
    ensures actions <= run
    ensures var s, u := Execute(cfg, actions), Execute(cfg, run);
            Calm(u) && u.health == s.health && u.periodic == Idle && u.heartbeat
  {
    hide Execute, Move;
    var s := Execute(cfg, actions);
    var now := s.lastPowerCycle + GAP;
    PeriodicTick(cfg, s, now);
    run := actions + [Act(Periodic, true, now)];
    ExecuteOne(cfg, actions, Act(Periodic, true, now));
    run := Settle(cfg, run, Periodic, now);
  }

  lemma PeriodicTick(cfg: Config, s: State, now: int)
    requires Calm(s) && s.periodic == Idle && now == s.lastPowerCycle + GAP
    ensures var u := Move(cfg, s, Periodic, true, now);
            && Calm(u) && u.health == s.health && u.periodic.Want?
            && Hopeful(cfg, u.heartbeat, Turned(cfg, u, now), u.periodic)
  {
  }

  /** The health loop at rest finds the contact too old once more. */
  lemma HealthTicks(cfg: Config, actions: seq<Action>) returns (run: seq<Action>)
    requires var s := Execute(cfg, actions); Calm(s) && s.health == Idle && Resting(s.periodic) && cfg.restartOnError
    ensures actions <= run
    ensures var s, u := Execute(cfg, actions), Execute(cfg, run);
            Calm(u) && u.periodic == s.periodic && u.health == Idle && u.heartbeat
  {
    hide Execute, Move;
    var s := Execute(cfg, actions);
    var now := s.lastContact + 2 * (cfg.healthInterval * 1_000_000_000) + 1;
    StaleTick(cfg, s, now);
    run := actions + [Act(Health, true, now)];
    ExecuteOne(cfg, actions, Act(Health, true, now));
    run := Settle(cfg, run, Health, now);
  }

  lemma StaleTick(cfg: Config, s: State, now: int)
    requires Calm(s) && s.health == Idle && cfg.restartOnError
    requires now == s.lastContact + 2 * (cfg.healthInterval * 1_000_000_000) + 1
    ensures var u := Move(cfg, s, Health, true, now);
            && Calm(u) && u.periodic == s.periodic && (u.health.Want? || u.health.Announce?)
            && Hopeful(cfg, u.heartbeat, Turned(cfg, u, now), u.health)
  {
    assert IsStale(cfg, s, now);
  }

  /** With both loops at rest they end, and Stop returns. */
  lemma Finish(cfg: Config, actions: seq<Action>) returns (run: seq<Action>)
    requires var s := Execute(cfg, actions); Calm(s) && Resting(s.health) && Resting(s.periodic)
    ensures actions <= run
    ensures var s, u := Execute(cfg, actions), Execute(cfg, run);
            u.main == Ended && u.heartbeat == s.heartbeat
  {
    hide Execute, Move;
    run := LoopEnds(cfg, actions, Health);
    run := LoopEnds(cfg, run, Periodic);
    StopEnds(cfg, Execute(cfg, run));
    ExecuteOne(cfg, run, Act(Main, true, 0));
    run := run + [Act(Main, true, 0)];
    ExecuteOne(cfg, run, Act(Main, true, 0));
    run := run + [Act(Main, true, 0)];
  }

  lemma LoopEnds(cfg: Config, actions: seq<Action>, t: Thread) returns (run: seq<Action>)
    requires var s := Execute(cfg, actions); Calm(s) && Resting(PcOf(s, t)) && !t.Main?
    ensures actions <= run
    ensures var s, u := Execute(cfg, actions), Execute(cfg, run);
            Calm(u) && OnlyMoved(s, u, t) && Over(PcOf(u, t)) && u.heartbeat == s.heartbeat
  {
    hide Execute;
    run := actions;
    if PcOf(Execute(cfg, actions), t) == Idle {
      ExecuteOne(cfg, actions, Act(t, false, 0));
      run := actions + [Act(t, false, 0)];
    }
  }

  lemma StopEnds(cfg: Config, s: State)
    requires Calm(s) && Over(s.health) && Over(s.periodic)
    ensures var u := Move(cfg, Move(cfg, s, Main, true, 0), Main, true, 0);
            u.main == Ended && u.heartbeat == s.heartbeat
  {
    assert Move(cfg, s, Main, true, 0) == s.(main := Closing);
  }

  // ---------- The exact condition ----------

  /** What can still keep or start a heartbeat once main waits in Stop: one that runs, a periodic loop,
      or a health loop that is allowed to recover. */
  predicate MaySurvive(cfg: Config, s: State) {
    s.heartbeat || !Over(s.periodic) || (!Over(s.health) && cfg.restartOnError)
  }

  lemma Survives(cfg: Config, actions: seq<Action>) returns (run: seq<Action>)
    requires Execute(cfg, actions).main == Joining && MaySurvive(cfg, Execute(cfg, actions))
    ensures actions <= run && Execute(cfg, run).main == Ended && Execute(cfg, run).heartbeat
  {
    hide Execute;
    run := SettleBoth(cfg, actions);
    if !Over(Execute(cfg, run).periodic) {
      run := PeriodicTicks(cfg, run);
    } else if !Over(Execute(cfg, run).health) && cfg.restartOnError {
      run := HealthTicks(cfg, run);
    }
    run := Finish(cfg, run);
  }

  /** Without any of them, none ever starts. */
  lemma {:induction false} Dies(cfg: Config, actions: seq<Action>, run: seq<Action>)
    requires actions <= run && Execute(cfg, actions).main == Joining && !MaySurvive(cfg, Execute(cfg, actions))
    ensures Dead(cfg, Execute(cfg, run))
    decreases |run|
  {
    hide Step, Dead;
    if run == actions {
      DeadNow(cfg, Execute(cfg, run));
    } else {
      var before := run[..|run| - 1];
      assert actions <= before;
      Dies(cfg, actions, before);
      RunSafety(cfg, before);
      DeadStep(cfg, Execute(cfg, before), run[|run| - 1]);
    }
  }

  predicate Dead(cfg: Config, s: State) {
    !MaySurvive(cfg, s) && (s.main == Joining || s.main == Closing || s.main == Ended)
  }

  lemma DeadNow(cfg: Config, s: State)
    requires s.main == Joining && !MaySurvive(cfg, s)
    ensures Dead(cfg, s)
  {
  }

  lemma DeadStep(cfg: Config, s: State, a: Action)
    requires Dead(cfg, s) && Invariant(cfg, s)
    ensures Dead(cfg, Step(cfg, s, a))
  {
    hide Coherent, Inner, Inside;
  }

  /** From the moment Stop begins to wait for the loops: some continuation lets Stop return with a
      heartbeat running if and only if one runs already, the periodic loop is not over, or the health
      loop is not over and may recover. */
  lemma HeartbeatSurvivesIff(cfg: Config, actions: seq<Action>)
    requires Execute(cfg, actions).main == Joining
    ensures (exists run :: actions <= run && Execute(cfg, run).main == Ended && Execute(cfg, run).heartbeat)
            <==> MaySurvive(cfg, Execute(cfg, actions))
  {
    hide Execute, MaySurvive;
    if MaySurvive(cfg, Execute(cfg, actions)) {
      var run := Survives(cfg, actions);
    } else {
      forall run | actions <= run
        ensures !Execute(cfg, run).heartbeat
      {
        Dies(cfg, actions, run);
        DeadIsQuiet(cfg, Execute(cfg, run));
      }
    }
  }

  lemma DeadIsQuiet(cfg: Config, s: State)
    requires Dead(cfg, s)
    ensures !s.heartbeat
  {
  }
}
