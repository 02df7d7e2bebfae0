/** Particular runs of the recovery supervisor: those in which every call succeeds, and two that show
    the limits of its guarantees (app/app.go). */
module RecoveryRuns {
  import opened Bytes
  import opened RunLog
  import opened Supervisor
  import opened Recovery

  // ---------- Runs in which every call succeeds ----------

  /** The last of the stamps is the one the debounce compares with. */
  predicate StampedAs(u: State, stamps: seq<int>) {
    Stamps(u.log) == stamps && u.lastPowerCycle == if stamps == [] then 0 else stamps[|stamps| - 1]
  }

  /** Thread t stands at one place of a procedure and the other threads where they stood in s. */
  predicate Standing(s: State, u: State, t: Thread, site: Site, at: At, stamps: seq<int>) {
    && PcOf(u, t) == In(site, at) && StampedAs(u, stamps)
    && u.resetMu == s.resetMu && u.stopping == s.stopping && u.wedged == s.wedged
    && (!t.Main? ==> u.main == s.main) && (!t.Health? ==> u.health == s.health)
      && (!t.Periodic? ==> u.periodic == s.periodic)
  }

  /** Where success leads from each place. */
  function Onward(p: Procedure, at: At): At {
    match at
    case Check => Halt
    case Halt => AfterHalt(p)
    case Ask => HangUp
    case Cut => HangUp
    case HangUp => AfterHangUp(p)
    case Dwell => Restore(false)
    case Restore(_) => Wait(0)
    case Wait(slot) => Connect(slot)
    case Connect(slot) => Login(slot)
    case Login(slot) => Load(slot)
    case Load(_) => Register
    case Cleanup(slot) => Wait(slot + 1)
    case Register => Revive
    case Revive => Return(Recovered)
    case Return(_) => at
  }

  predicate Succeeds(at: At) {
    match at
    case Check => false
    case Restore(aborted) => !aborted
    case Wait(slot) => slot < SLOTS
    case Return(_) => false
    case _ => true
  }

  lemma NextOnward(cfg: Config, u: State, t: Thread, p: Procedure, at: At, now: int)
    requires Succeeds(at)
    ensures Next(cfg, u, t, p, at, true, now) == Onward(p, at)
  {
  }

  lemma KeepsStamps(u: State, e: Event, stamps: seq<int>)
    requires StampedAs(u, stamps) && !e.Stamp?
    ensures StampedAs(Happen(u, e), stamps)
  {
  }

  lemma CallStamps(cfg: Config, u: State, site: Site, at: At, now: int, stamps: seq<int>)
    requires StampedAs(u, stamps) && !at.Check?
    ensures StampedAs(Called(cfg, u, site, at, true, now), stamps)
  {
    hide Happen, Stamps;
    var call := Call(cfg, u, site, at, true, now);
    if call.Some? {
      KeepsStamps(u, call.value, stamps);
    }
  }

  lemma MoveStands(cfg: Config, s: State, u: State, t: Thread, site: Site, at: At, now: int, stamps: seq<int>)
    requires Standing(s, u, t, site, at, stamps) && Succeeds(at)
    ensures Standing(s, Move(cfg, u, t, true, now), t, site, Onward(ProcedureAt(site), at), stamps)
  {
    hide Next, Called, Onward, ProcedureAt, StampedAs, Move, Goto, Stamps;
    MoveIn(cfg, u, t, site, at, true, now);
    NextOnward(cfg, u, t, ProcedureAt(site), at, now);
    CalledFrame(cfg, u, site, at, true, now);
    CallStamps(cfg, u, site, at, now, stamps);
    GotoStands(s, Called(cfg, u, site, at, true, now), t, site, Onward(ProcedureAt(site), at), stamps);
  }

  lemma GotoStands(s: State, u: State, t: Thread, site: Site, at: At, stamps: seq<int>)
    requires StampedAs(u, stamps) && u.resetMu == s.resetMu && u.stopping == s.stopping && u.wedged == s.wedged
    requires (!t.Main? ==> u.main == s.main) && (!t.Health? ==> u.health == s.health)
             && (!t.Periodic? ==> u.periodic == s.periodic)
    ensures Standing(s, Goto(u, t, In(site, at)), t, site, at, stamps)
  {
    hide StampedAs;
    MovedStamps(u, t, In(site, at), stamps);
  }

  lemma MoveRevives(cfg: Config, u: State, t: Thread, site: Site, now: int)
    requires PcOf(u, t) == In(site, Revive)
    ensures Move(cfg, u, t, true, now).heartbeat
  {
  }

  /** The n-th move of a run in which everything succeeds. */
  lemma Advance(cfg: Config, s: State, t: Thread, site: Site, at: At, now: int, n: nat, stamps: seq<int>)
    requires Standing(s, Moves(cfg, s, t, true, now, n), t, site, at, stamps) && Succeeds(at)
    ensures var v := Moves(cfg, s, t, true, now, n + 1);
            Standing(s, v, t, site, Onward(ProcedureAt(site), at), stamps) && (at.Revive? ==> v.heartbeat)
  {
    var u := Moves(cfg, s, t, true, now, n);
    assert PcOf(u, t) == In(site, at);
    MoveStands(cfg, s, u, t, site, at, now, stamps);
    hide Move, Standing, Succeeds, Onward;
    if at.Revive? {
      MoveRevives(cfg, u, t, site, now);
    }
  }

  /** From a wait, six moves reach the end. */
  lemma WaitsAndConnects(cfg: Config, s: State, t: Thread, site: Site, slot: nat, now: int, n: nat, stamps: seq<int>)
    requires Standing(s, Moves(cfg, s, t, true, now, n), t, site, Wait(slot), stamps) && slot < SLOTS
    ensures var u := Moves(cfg, s, t, true, now, n + 6);
            Standing(s, u, t, site, Return(Recovered), stamps) && u.heartbeat
  {
    hide Move, Moves, Standing, ProcedureAt;
    Advance(cfg, s, t, site, Wait(slot), now, n, stamps);
    Advance(cfg, s, t, site, Connect(slot), now, n + 1, stamps);
    Advance(cfg, s, t, site, Login(slot), now, n + 2, stamps);
    Advance(cfg, s, t, site, Load(slot), now, n + 3, stamps);
    Advance(cfg, s, t, site, Register, now, n + 4, stamps);
    Advance(cfg, s, t, site, Revive, now, n + 5, stamps);
  }

  lemma NoMoves(cfg: Config, s: State, t: Thread, now: int)
    ensures Moves(cfg, s, t, true, now, 0) == s
  {
  }

  /** A reboot completes in nine moves of its thread, with the heartbeat running and no stamp. */
  lemma RebootCompletes(cfg: Config, s: State, t: Thread, site: Site, now: int, stamps: seq<int>)
    requires Standing(s, s, t, site, Halt, stamps) && ProcedureAt(site) == Reboot
    ensures var u := Moves(cfg, s, t, true, now, 9);
            Standing(s, u, t, site, Return(Recovered), stamps) && u.heartbeat
  {
    hide Move, Moves, Standing, ProcedureAt;
    NoMoves(cfg, s, t, now);
    Advance(cfg, s, t, site, Halt, now, 0, stamps);
    Advance(cfg, s, t, site, Ask, now, 1, stamps);
    Advance(cfg, s, t, site, HangUp, now, 2, stamps);
    WaitsAndConnects(cfg, s, t, site, 0, now, 3, stamps);
  }

  lemma StampEvent(s: State, now: int, stamps: seq<int>)
    requires StampedAs(s, stamps)
    ensures StampedAs(Happen(s, Stamp(now)), stamps + [now])
  {
  }

  lemma Stamping(cfg: Config, s: State, t: Thread, site: Site, now: int, stamps: seq<int>)
    requires Standing(s, s, t, site, Check, stamps) && !Refusing(cfg) && !Debouncing(s, now)
    ensures Standing(s, Moves(cfg, s, t, true, now, 1), t, site, Halt, stamps + [now])
  {
    hide Moves, StampedAs, Called, Next, Refusing, Debouncing, Happen;
    OneMove(cfg, s, t, true, now);
    StampEvent(s, now, stamps);
    StampCall(cfg, s, t, site, now);
    CalledFrame(cfg, s, site, Check, true, now);
    MovedStamps(Called(cfg, s, site, Check, true, now), t, In(site, Halt), stamps + [now]);
  }

  lemma StampCall(cfg: Config, s: State, t: Thread, site: Site, now: int)
    requires !Refusing(cfg) && !Debouncing(s, now)
    ensures Called(cfg, s, site, Check, true, now) == Happen(s, Stamp(now))
    ensures Next(cfg, s, t, ProcedureAt(site), Check, true, now) == Halt
  {
    hide Happen;
  }

  lemma MovedStamps(u: State, t: Thread, pc: Pc, stamps: seq<int>)
    requires StampedAs(u, stamps)
    ensures StampedAs(Goto(u, t, pc), stamps)
  {
  }

  /** A power cycle that is neither refused nor debounced completes in twelve moves of its thread, with
      the heartbeat running and one new stamp: the time of its request. */
  lemma CycleCompletes(cfg: Config, s: State, t: Thread, site: Site, now: int, stamps: seq<int>)
    requires Standing(s, s, t, site, Check, stamps) && ProcedureAt(site) == PowerCycle
    requires !Refusing(cfg) && !Debouncing(s, now)
    ensures var u := Moves(cfg, s, t, true, now, 12);
            Standing(s, u, t, site, Return(Recovered), stamps + [now]) && u.heartbeat
  {
    hide Move, Moves, Standing, ProcedureAt, Refusing, Debouncing;
    Stamping(cfg, s, t, site, now, stamps);
    var all := stamps + [now];
    Advance(cfg, s, t, site, Halt, now, 1, all);
    Advance(cfg, s, t, site, Cut, now, 2, all);
    Advance(cfg, s, t, site, HangUp, now, 3, all);
    Advance(cfg, s, t, site, Dwell, now, 4, all);
    Advance(cfg, s, t, site, Restore(false), now, 5, all);
    WaitsAndConnects(cfg, s, t, site, 0, now, 6, all);
  }

  /** From every reachable state in which a thread has just entered a reboot, or a power cycle that is
      neither refused nor debounced, its own moves complete the recovery if every call succeeds. */
  lemma RecoveryCompletes(cfg: Config, actions: seq<Action>, t: Thread, site: Site, now: int)
    requires PcOf(Execute(cfg, actions), t) == In(site, First(ProcedureAt(site)))
    requires ProcedureAt(site) == Reboot || ProcedureAt(site) == PowerCycle
    requires ProcedureAt(site) == PowerCycle ==> !Refusing(cfg) && !Debouncing(Execute(cfg, actions), now)
    ensures var moves := if ProcedureAt(site) == Reboot then 9 else 12;
            var u := Execute(cfg, actions + Own(t, true, now, moves));
            PcOf(u, t) == In(site, Return(Recovered)) && u.heartbeat
  {
    hide Execute, Move, Moves, Own, Refusing, Debouncing, Standing;
    var s := Execute(cfg, actions);
    var stamps := Stamps(s.log);
    ReachableStamps(cfg, actions);
    StandingHere(s, t, site, First(ProcedureAt(site)), stamps);
    if ProcedureAt(site) == Reboot {
      RebootCompletes(cfg, s, t, site, now, stamps);
      OwnRun(cfg, actions, t, true, now, 9);
      StandingPc(s, Moves(cfg, s, t, true, now, 9), t, site, Return(Recovered), stamps);
    } else {
      CycleCompletes(cfg, s, t, site, now, stamps);
      OwnRun(cfg, actions, t, true, now, 12);
      StandingPc(s, Moves(cfg, s, t, true, now, 12), t, site, Return(Recovered), stamps + [now]);
    }
  }

  lemma ReachableStamps(cfg: Config, actions: seq<Action>)
    ensures StampedAs(Execute(cfg, actions), Stamps(Execute(cfg, actions).log))
  {
    RunSafety(cfg, actions);
    StampsSpaced(cfg, Execute(cfg, actions).log);
  }

  lemma StandingHere(s: State, t: Thread, site: Site, at: At, stamps: seq<int>)
    requires PcOf(s, t) == In(site, at) && StampedAs(s, stamps)
    ensures Standing(s, s, t, site, at, stamps)
  {
  }

  lemma StandingPc(s: State, u: State, t: Thread, site: Site, at: At, stamps: seq<int>)
    requires Standing(s, u, t, site, at, stamps)
    ensures PcOf(u, t) == In(site, at)
  {
  }

  lemma {:induction false} MovesAdd(cfg: Config, s: State, t: Thread, ok: bool, now: int, a: nat, b: nat)
    ensures Moves(cfg, s, t, ok, now, a + b) == Moves(cfg, Moves(cfg, s, t, ok, now, a), t, ok, now, b)
  {
    hide Move;
    if b > 0 {
      MovesAdd(cfg, s, t, ok, now, a, b - 1);
    }
  }

  lemma OneMove(cfg: Config, s: State, t: Thread, ok: bool, now: int)
    ensures Moves(cfg, s, t, ok, now, 1) == Move(cfg, s, t, ok, now)
  {
    hide Move;
    assert Moves(cfg, s, t, ok, now, 0) == s;
  }

  /** A state in which nothing is going on. */
  predicate Resting(cfg: Config, s: State, stamps: seq<int>) {
    && s.main == Idle && s.health == (if cfg.healthInterval > 0 then Idle else Dormant)
    && s.periodic == (if cfg.periodicLoop then Idle else Dormant)
    && s.resetMu == None && !s.stopping && !s.wedged && s.heartbeat && StampedAs(s, stamps)
  }

  /** If every call succeeds, Start takes 18 moves: the bring-up, and the reboot on startup. */
  lemma StartCompletes(cfg: Config, now: int)
    ensures Resting(cfg, Moves(cfg, Initial, Main, true, now, 18), [])
  {
    hide Moves, Standing, Resting;
    FirstMove(cfg, now);
    var s1 := Moves(cfg, Initial, Main, true, now, 1);
    BringUpCompletes(cfg, s1, now);
    MovesAdd(cfg, Initial, Main, true, now, 1, 5);
    ToReboot(cfg, s1, Moves(cfg, Initial, Main, true, now, 6), now);
    MovesAdd(cfg, Initial, Main, true, now, 6, 2);
    var s8 := Moves(cfg, Initial, Main, true, now, 8);
    RebootCompletes(cfg, s8, Main, StartReboot, now, []);
    MovesAdd(cfg, Initial, Main, true, now, 8, 9);
    var s17 := Moves(cfg, Initial, Main, true, now, 17);
    Launch(cfg, s8, s17, now);
    MovesAdd(cfg, Initial, Main, true, now, 17, 1);
    OneMove(cfg, s17, Main, true, now);
  }

  lemma FirstMove(cfg: Config, now: int)
    ensures var s := Moves(cfg, Initial, Main, true, now, 1);
            && Standing(s, s, Main, StartUp, Connect(0), [])
            && s.health == s.periodic == Dormant && s.resetMu == None && !s.stopping && !s.wedged
  {
    OneMove(cfg, Initial, Main, true, now);
  }

  lemma BringUpCompletes(cfg: Config, s: State, now: int)
    requires Standing(s, s, Main, StartUp, Connect(0), [])
    ensures var u := Moves(cfg, s, Main, true, now, 5);
            Standing(s, u, Main, StartUp, Return(Recovered), []) && u.heartbeat
  {
    hide Move, Moves, Standing, ProcedureAt;
    NoMoves(cfg, s, Main, now);
    Advance(cfg, s, Main, StartUp, Connect(0), now, 0, []);
    Advance(cfg, s, Main, StartUp, Login(0), now, 1, []);
    Advance(cfg, s, Main, StartUp, Load(0), now, 2, []);
    Advance(cfg, s, Main, StartUp, Register, now, 3, []);
    Advance(cfg, s, Main, StartUp, Revive, now, 4, []);
  }

  lemma ToReboot(cfg: Config, s: State, u: State, now: int)
    requires Standing(s, u, Main, StartUp, Return(Recovered), []) && s.health == s.periodic == Dormant
    requires s.resetMu == None && !s.stopping && !s.wedged
    ensures var v := Moves(cfg, u, Main, true, now, 2);
            && Standing(v, v, Main, StartReboot, Halt, [])
            && v.health == v.periodic == Dormant && v.resetMu == Some(Main) && !v.stopping && !v.wedged
  {
    OneMove(cfg, u, Main, true, now);
    var v1 := Moves(cfg, u, Main, true, now, 1);
    assert v1.main == Want(StartReboot) && v1.resetMu == None;
  }

  lemma Launch(cfg: Config, s: State, u: State, now: int)
    requires Standing(s, u, Main, StartReboot, Return(Recovered), []) && u.heartbeat && !s.stopping && !s.wedged
    ensures Resting(cfg, Move(cfg, u, Main, true, now), [])
  {
  }

  // ---------- Two limits ----------

  const Plugged := Config("plug/set", true, true, true, 0, true)

  /** From a state of rest, the periodic loop runs a whole power cycle in 15 moves. */
  lemma TimedCycleRuns(s: State, now: int, stamps: seq<int>)
    requires Resting(Plugged, s, stamps) && !Debouncing(s, now)
    ensures Resting(Plugged, Moves(Plugged, s, Periodic, true, now, 15), stamps + [now])
  {
    hide Moves, Standing, Resting, Debouncing;
    ToCycle(s, now, stamps);
    var s2 := Moves(Plugged, s, Periodic, true, now, 2);
    CycleCompletes(Plugged, s2, Periodic, TimedCycle, now, stamps);
    MovesAdd(Plugged, s, Periodic, true, now, 2, 12);
    var s14 := Moves(Plugged, s, Periodic, true, now, 14);
    BackToRest(s, s2, s14, now, stamps + [now]);
    MovesAdd(Plugged, s, Periodic, true, now, 14, 1);
  }

  lemma ToCycle(s: State, now: int, stamps: seq<int>)
    requires Resting(Plugged, s, stamps)
    ensures var u := Moves(Plugged, s, Periodic, true, now, 2);
            && Standing(u, u, Periodic, TimedCycle, Check, stamps) && u.main == s.main && u.health == s.health
            && u.resetMu == Some(Periodic) && u.stopping == s.stopping && u.wedged == s.wedged
            && Debouncing(u, now) == Debouncing(s, now)
  {
    OneMove(Plugged, s, Periodic, true, now);
    var u1 := Moves(Plugged, s, Periodic, true, now, 1);
    assert u1.periodic == Want(TimedCycle) && u1.resetMu == None;
  }

  lemma BackToRest(s: State, v: State, u: State, now: int, stamps: seq<int>)
    requires exists earlier :: Resting(Plugged, s, earlier)
    requires v.main == s.main && v.health == s.health && v.stopping == s.stopping && v.wedged == s.wedged
    requires Standing(v, u, Periodic, TimedCycle, Return(Recovered), stamps) && u.heartbeat
    ensures Resting(Plugged, Moves(Plugged, u, Periodic, true, now, 1), stamps)
  {
    OneMove(Plugged, u, Periodic, true, now);
  }

  /** A clock that reads exactly zero at a power cycle leaves the next one undebounced: two cycles one
      nanosecond apart. */
  lemma ZeroStampDefeatsDebounce()
    ensures exists actions :: Stamps(Execute(Plugged, actions).log) == [0, 1]
  {
    hide Moves, Resting, Execute, Own, Stamps;
    var a1 := [] + Own(Main, true, 0, 18);
    var a2 := a1 + Own(Periodic, true, 0, 15);
    var a3 := a2 + Own(Periodic, true, 1, 15);
    OwnRun(Plugged, [], Main, true, 0, 18);
    OwnRun(Plugged, a1, Periodic, true, 0, 15);
    OwnRun(Plugged, a2, Periodic, true, 1, 15);
    NothingYet(Plugged);
    StartCompletes(Plugged, 0);
    var s1 := Execute(Plugged, a1);
    RestingStamps(Plugged, s1, []);
    TimedCycleRuns(s1, 0, []);
    var s2 := Execute(Plugged, a2);
    RestingStamps(Plugged, s2, [] + [0]);
    TimedCycleRuns(s2, 1, [] + [0]);
    RestingStamps(Plugged, Execute(Plugged, a3), [] + [0] + [1]);
    assert [] + [0] + [1] == [0, 1];
  }

  lemma NothingYet(cfg: Config)
    ensures Execute(cfg, []) == Initial
  {
  }

  lemma RestingStamps(cfg: Config, s: State, stamps: seq<int>)
    requires Resting(cfg, s, stamps)
    ensures Stamps(s.log) == stamps && s.lastPowerCycle == if stamps == [] then 0 else stamps[|stamps| - 1]
  {
  }

  const Unplugged := Config("", true, true, false, 0, true)

  /** A recovery that waits for resetMu while Stop is in its critical section starts a new heartbeat
      afterwards, and nobody stops it: Stop returns with the client disconnected and a heartbeat
      running. */
  lemma HeartbeatOutlivesStop()
    ensures exists actions ::
              var s := Execute(Unplugged, actions);
              s.main == Ended && s.heartbeat && !s.connected
  {
    hide Moves, Resting, Execute, Own, Stamps;
    var a1 := [] + Own(Main, true, 0, 18);
    var a2 := a1 + Own(Periodic, true, 0, 1);
    var a3 := a2 + Own(Main, true, 0, 4);
    var a4 := a3 + Own(Periodic, true, 0, 11);
    var a5 := a4 + Own(Periodic, false, 0, 1);
    var a6 := a5 + Own(Main, true, 0, 2);
    OwnRun(Unplugged, [], Main, true, 0, 18);
    OwnRun(Unplugged, a1, Periodic, true, 0, 1);
    OwnRun(Unplugged, a2, Main, true, 0, 4);
    OwnRun(Unplugged, a3, Periodic, true, 0, 11);
    OwnRun(Unplugged, a4, Periodic, false, 0, 1);
    OwnRun(Unplugged, a5, Main, true, 0, 2);
    NothingYet(Unplugged);
    StartCompletes(Unplugged, 0);
    TickBeforeStop(Execute(Unplugged, a1));
    StopBeforeReboot(Execute(Unplugged, a2));
    RebootAfterStop(Execute(Unplugged, a3));
    LoopEnds(Execute(Unplugged, a4));
    StopEnds(Execute(Unplugged, a5));
  }

  lemma TickBeforeStop(s: State)
    requires Resting(Unplugged, s, [])
    ensures var u := Moves(Unplugged, s, Periodic, true, 0, 1);
            && u.main == Idle && u.health == Dormant && u.periodic == Want(TimedReboot)
            && u.resetMu == None && !u.wedged && StampedAs(u, [])
  {
    OneMove(Unplugged, s, Periodic, true, 0);
  }

  lemma StopBeforeReboot(s: State)
    requires s.main == Idle && s.health == Dormant && s.periodic == Want(TimedReboot)
    requires s.resetMu == None && StampedAs(s, [])
    ensures var u := Moves(Unplugged, s, Main, true, 0, 4);
            && u.main == Joining && u.health == Dormant && u.periodic == Want(TimedReboot)
            && u.resetMu == None && u.stopping && StampedAs(u, [])
  {
    hide Move, Moves;
    NoMoves(Unplugged, s, Main, 0);
    var s1 := StopMove(s, 0);
    var s2 := StopMove(s, 1);
    var s3 := StopMove(s, 2);
    var s4 := StopMove(s, 3);
  }

  /** The moves of Stop up to its wait for the loops. */
  function StopPc(n: nat): Pc {
    match n
    case 0 => Idle
    case 1 => Want(Shutdown)
    case 2 => In(Shutdown, Halt)
    case 3 => In(Shutdown, Return(Halted))
    case _ => Joining
  }

  predicate Stopping(u: State, n: nat) {
    && u.main == StopPc(n) && u.health == Dormant && u.periodic == Want(TimedReboot)
    && u.resetMu == (if n == 2 || n == 3 then Some(Main) else None)
    && (n > 0 ==> u.stopping) && StampedAs(u, [])
  }

  lemma StopMove(s: State, n: nat) returns (u: State)
    requires n < 4 && Stopping(Moves(Unplugged, s, Main, true, 0, n), n)
    ensures u == Moves(Unplugged, s, Main, true, 0, n + 1) && Stopping(u, n + 1)
  {
    hide Move, Stopping;
    u := Move(Unplugged, Moves(Unplugged, s, Main, true, 0, n), Main, true, 0);
    StopStep(Moves(Unplugged, s, Main, true, 0, n), n);
  }

  lemma StopStep(s: State, n: nat)
    requires n < 4 && Stopping(s, n)
    ensures Stopping(Move(Unplugged, s, Main, true, 0), n + 1)
  {
    hide StampedAs, Happen;
    if n == 1 {
      var held := s.(resetMu := Some(Main));
      SameStamps(s, held, []);
      HappenFrame(held, Enter(Shutdown));
      KeepsStamps(held, Enter(Shutdown), []);
      SameStamps(Happen(held, Enter(Shutdown)), Move(Unplugged, s, Main, true, 0), []);
    } else if n == 2 {
      HappenFrame(s, StopHeartbeat);
      KeepsStamps(s, StopHeartbeat, []);
      SameStamps(if s.heartbeat then Happen(s, StopHeartbeat) else s, Move(Unplugged, s, Main, true, 0), []);
    } else if n == 3 {
      var held := s.(resetMu := None);
      SameStamps(s, held, []);
      HappenFrame(held, Leave(Shutdown, Halted));
      KeepsStamps(held, Leave(Shutdown, Halted), []);
      SameStamps(Happen(held, Leave(Shutdown, Halted)), Move(Unplugged, s, Main, true, 0), []);
    } else {
      SameStamps(s, Move(Unplugged, s, Main, true, 0), []);
    }
  }

  lemma SameStamps(s: State, u: State, stamps: seq<int>)
    requires StampedAs(s, stamps) && u.log == s.log && u.lastPowerCycle == s.lastPowerCycle
    ensures StampedAs(u, stamps)
  {
  }

  lemma RebootAfterStop(s: State)
    requires s.main == Joining && s.health == Dormant && s.periodic == Want(TimedReboot)
    requires s.resetMu == None && s.stopping && StampedAs(s, [])
    ensures var u := Moves(Unplugged, s, Periodic, true, 0, 11);
            && u.main == Joining && u.health == Dormant && u.periodic == Idle && u.stopping && u.heartbeat
  {
    hide Moves, Standing, StampedAs;
    Reenters(s);
    var s1 := Moves(Unplugged, s, Periodic, true, 0, 1);
    RebootCompletes(Unplugged, s1, Periodic, TimedReboot, 0, []);
    MovesAdd(Unplugged, s, Periodic, true, 0, 1, 9);
    var s10 := Moves(Unplugged, s, Periodic, true, 0, 10);
    Rests(s1, s10);
    MovesAdd(Unplugged, s, Periodic, true, 0, 10, 1);
  }

  lemma Reenters(s: State)
    requires s.main == Joining && s.health == Dormant && s.periodic == Want(TimedReboot)
    requires s.resetMu == None && s.stopping && StampedAs(s, [])
    ensures var u := Moves(Unplugged, s, Periodic, true, 0, 1);
            Standing(u, u, Periodic, TimedReboot, Halt, []) && u.main == Joining && u.health == Dormant && u.stopping
  {
    OneMove(Unplugged, s, Periodic, true, 0);
  }

  lemma Rests(s: State, u: State)
    requires Standing(s, u, Periodic, TimedReboot, Return(Recovered), []) && u.heartbeat
    requires s.main == Joining && s.health == Dormant && s.stopping
    ensures var v := Moves(Unplugged, u, Periodic, true, 0, 1);
            && v.main == Joining && v.health == Dormant && v.periodic == Idle && v.stopping && v.heartbeat
  {
    OneMove(Unplugged, u, Periodic, true, 0);
  }

  lemma LoopEnds(s: State)
    requires s.main == Joining && s.health == Dormant && s.periodic == Idle && s.stopping && s.heartbeat
    ensures Moves(Unplugged, s, Periodic, false, 0, 1) == s.(periodic := Ended)
  {
    OneMove(Unplugged, s, Periodic, false, 0);
  }

  lemma StopEnds(s: State)
    requires s.main == Joining && s.health == Dormant && s.periodic == Ended && s.heartbeat
    ensures var u := Moves(Unplugged, s, Main, true, 0, 2);
            u.main == Ended && u.heartbeat && !u.connected
  {
    OneMove(Unplugged, s, Main, true, 0);
    var s1 := Moves(Unplugged, s, Main, true, 0, 1);
    assert s1 == s.(main := Closing);
  }
}
