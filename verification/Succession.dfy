/** In which order each thread of the supervisor runs the recovery procedures, in every run: what the
    callers do with the outcomes (app/app.go Start, runPeriodicRestart, checkHealth and
    escalateToPowerCycle). */
module Succession {
  import opened Bytes
  import opened Choreography
  import opened RunLog
  import opened Supervisor

  /** The events of a thread's own program: procedures entered and left, and for the health check its
      ticks and announcements. */
  predicate Owns(t: Thread, e: Event) {
    match e
    case Enter(site) => Owner(site) == t
    case Leave(site, _) => Owner(site) == t
    case Tick(_) => t == Health
    case Unavailable => t == Health
    case Available => t == Health
    case _ => false
  }

  function LastOwn(l: Log, t: Thread): Option<Event> {
    match l
    case Empty => None
    case Then(b, e) => if Owns(t, e) then Some(e) else LastOwn(b, t)
  }

  /** What a thread does next. */
  datatype Duty =
    | Run(site: Site)        // enter this procedure
    | Busy(site: Site)       // leave it again
    | Mark(available: bool)  // announce
    | Rest                   // wait for a tick, or for Stop
    | Finish

  /** A failed reconnect or reboot of the health check leads to the plug if there is one. */
  function Escalation(cfg: Config): Duty {
    if cfg.topic == "" then Rest else Run(TickCycle)
  }

  /** A recovery of the health check makes the covers available if they are not. */
  function Restoration(offline: bool): Duty {
    if offline then Mark(true) else Rest
  }

  /** A gateway that is known to be unreachable is reconnected only with restart-on-error. */
  function Reaction(cfg: Config): Duty {
    if cfg.restartOnError then Run(TickReconnect) else Rest
  }

  function HealthDuty(cfg: Config, offline: bool, last: Event): Duty {
    match last
    case Tick(stale) => if stale != offline then Mark(!stale) else if stale then Reaction(cfg) else Rest
    case Unavailable => Reaction(cfg)
    case Leave(TickReconnect, outcome) => if outcome == Recovered then Run(TickReboot) else Escalation(cfg)
    case Leave(TickReboot, outcome) => if outcome == Recovered then Restoration(offline) else Escalation(cfg)
    case Leave(TickCycle, outcome) => if outcome == Recovered then Restoration(offline) else Rest
    case Enter(site) => Busy(site)
    case _ => Rest
  }

  function MainDuty(cfg: Config, last: Event): Duty {
    match last
    case Leave(StartUp, Recovered) => Run(StartReboot)
    case Leave(StartUp, Unreachable) => if cfg.topic == "" then Rest else Run(StartCycle)
    case Leave(Shutdown, _) => Finish
    case Enter(site) => Busy(site)
    case _ => Rest
  }

  function PeriodicDuty(last: Event): Duty {
    match last
    case Leave(TimedCycle, outcome) => if outcome == Recovered || outcome == Debounced then Rest else Run(TimedReboot)
    case Enter(site) => Busy(site)
    case _ => Rest
  }

  /** The duty of a thread after a history, as it follows from its own last event. */
  function Due(cfg: Config, l: Log, t: Thread): Duty {
    match LastOwn(l, t)
    case None => if t == Main then Run(StartUp) else Rest
    case Some(last) =>
      match t
      case Main => MainDuty(cfg, last)
      case Health => HealthDuty(cfg, Offline(l), last)
      case Periodic => PeriodicDuty(last)
  }

  /** What the periodic restart begins with. */
  function PeriodicSite(cfg: Config): Site {
    if cfg.periodicPowerCycle && cfg.topic != "" then TimedCycle else TimedReboot
  }

  /** The event with which a thread does its duty. */
  predicate Discharges(cfg: Config, duty: Duty, t: Thread, e: Event) {
    match duty
    case Run(site) => e == Enter(site)
    case Busy(site) => e.Leave? && e.site == site
    case Mark(available) => e == if available then Available else Unavailable
    case Rest =>
      (match t
       case Main => e == Enter(Shutdown)
       case Health => e.Tick?
       case Periodic => e == Enter(PeriodicSite(cfg)))
    case Finish => false
  }

  /** Where a thread with a duty stands. */
  predicate Attends(cfg: Config, duty: Duty, t: Thread, pc: Pc) {
    match duty
    case Run(site) => if site == StartUp then t == Main && pc == Dormant else pc == Want(site)
    case Busy(site) => pc.In? && pc.site == site
    case Mark(available) => pc == Announce(available) || (available && pc == Restored)
    case Rest =>
      || pc == Idle || (t != Main && (pc == Dormant || pc == Ended)) || (t == Health && pc == Restored)
      || (t == Main && pc == Want(Shutdown)) || (t == Periodic && pc == Want(PeriodicSite(cfg)))
    case Finish => pc == Joining || pc == Closing || pc == Ended
  }

  predicate Dutiful(cfg: Config, s: State, t: Thread) {
    && Attends(cfg, Due(cfg, s.log, t), t, PcOf(s, t))
    && (t == Health && s.health == Restored ==> Due(cfg, s.log, t) == Restoration(Offline(s.log)))
  }

  // ---------- Own moves ----------

  /** What is recorded, if it belongs to the thread, is its duty. */
  predicate Does(cfg: Config, l: Log, t: Thread, k: Log) {
    k == l || (k.Then? && k.before == l && (Owns(t, k.event) ==> Discharges(cfg, Due(cfg, l, t), t, k.event)))
  }

  /** An event of another thread changes no duty. */
  lemma ForeignDue(cfg: Config, l: Log, t: Thread, e: Event)
    requires !Owns(t, e)
    ensures Due(cfg, Then(l, e), t) == Due(cfg, l, t)
    ensures t == Health ==> Offline(Then(l, e)) == Offline(l)
  {
    hide HealthDuty, MainDuty, PeriodicDuty;
  }

  lemma OwnDue(cfg: Config, l: Log, t: Thread, e: Event)
    requires Owns(t, e)
    ensures Due(cfg, Then(l, e), t)
            == match t
               case Main => MainDuty(cfg, e)
               case Health => HealthDuty(cfg, Offline(Then(l, e)), e)
               case Periodic => PeriodicDuty(e)
  {
    hide HealthDuty, MainDuty, PeriodicDuty, Offline;
  }

  lemma OfflineIsWedged(cfg: Config, s: State)
    requires Invariant(cfg, s)
    ensures !s.health.Announce? ==> Offline(s.log) == s.wedged
    ensures s.health.Announce? ==> Offline(s.log) == s.health.available
  {
    hide Coherent, Offline, ThreadOk;
  }

  lemma StartDuty(cfg: Config, s: State, ok: bool, now: int)
    requires s.main == Dormant && Dutiful(cfg, s, Main)
    ensures var u := Move(cfg, s, Main, ok, now);
            Dutiful(cfg, u, Main) && Does(cfg, s.log, Main, u.log)
  {
    var u := Move(cfg, s, Main, ok, now);
    assert u.log == Then(s.log, Enter(StartUp)) && u.main == In(StartUp, Connect(0));
    hide Move, Due;
    OwnDue(cfg, s.log, Main, Enter(StartUp));
  }

  lemma EnterDuty(cfg: Config, s: State, t: Thread, site: Site)
    requires PcOf(s, t) == Want(site) && Dutiful(cfg, s, t) && Owner(site) == t
    ensures Dutiful(cfg, Entered(s, t, site), t) && Does(cfg, s.log, t, Entered(s, t, site).log)
  {
    EnteredLog(s, t, site);
    EnteredOwnPc(s, t, site);
    hide Entered, Due, First, ProcedureAt;
    OwnDue(cfg, s.log, t, Enter(site));
  }

  lemma EnteredOwnPc(s: State, t: Thread, site: Site)
    ensures PcOf(Entered(s, t, site), t) == In(site, First(ProcedureAt(site)))
  {
    hide First, ProcedureAt;
  }

  /** The caller does with the outcome what its duty is then. */
  lemma LeaveDuty(cfg: Config, s: State, t: Thread, site: Site, outcome: Outcome)
    requires PcOf(s, t) == In(site, Return(outcome)) && Dutiful(cfg, s, t) && Owner(site) == t
    ensures var u := Unlock(cfg, s, t, site, outcome); Dutiful(cfg, u, t) && Does(cfg, s.log, t, u.log)
  {
    UnlockGrows(cfg, s, t, site, outcome);
    UnlockOwnPc(cfg, s, t, site, outcome);
    OwnDue(cfg, s.log, t, Leave(site, outcome));
    hide Unlock, Due;
  }

  lemma UnlockOwnPc(cfg: Config, s: State, t: Thread, site: Site, outcome: Outcome)
    requires Owner(site) == t
    ensures PcOf(Unlock(cfg, s, t, site, outcome), t) == After(cfg, site, outcome)
  {
    hide After;
    LaunchIsMain(cfg, site, outcome);
  }

  /** Calls inside a procedure are nobody's duty. */
  lemma CallsAreNoDuty(cfg: Config, s: State, t: Thread, site: Site, at: At, ok: bool, now: int)
    requires Call(cfg, s, site, at, ok, now).Some?
    ensures !Owns(t, Call(cfg, s, site, at, ok, now).value)
  {
  }

  lemma ProceedDuty(cfg: Config, s: State, t: Thread, site: Site, at: At, ok: bool, now: int)
    requires PcOf(s, t) == In(site, at) && Dutiful(cfg, s, t)
    ensures var u := Proceed(cfg, s, t, site, at, ok, now); Dutiful(cfg, u, t) && Does(cfg, s.log, t, u.log)
  {
    hide Call, Next, Due, Called, Owns, Discharges;
    var call := Call(cfg, s, site, at, ok, now);
    ProceedGrows(cfg, s, t, site, at, ok, now);
    PcAfter(Called(cfg, s, site, at, ok, now), t, In(site, Next(cfg, s, t, ProcedureAt(site), at, ok, now)));
    if call.Some? {
      CallsAreNoDuty(cfg, s, t, site, at, ok, now);
      ForeignDue(cfg, s.log, t, call.value);
    }
  }

  lemma TickDuty(cfg: Config, s: State, now: int)
    requires Invariant(cfg, s) && s.health == Idle && Dutiful(cfg, s, Health)
    ensures var u := HealthTick(cfg, s, now); Dutiful(cfg, u, Health) && Does(cfg, s.log, Health, u.log)
  {
    OfflineIsWedged(cfg, s);
    var e := Tick(IsStale(cfg, s, now));
    OwnDue(cfg, s.log, Health, e);
    hide Due, IsStale, Invariant;
    assert Offline(Then(s.log, e)) == Offline(s.log);
  }

  lemma IdleDuty(cfg: Config, s: State, t: Thread, ok: bool, now: int)
    requires Invariant(cfg, s) && PcOf(s, t) == Idle && Dutiful(cfg, s, t)
    ensures var u := IdleStep(cfg, s, t, ok, now); Dutiful(cfg, u, t) && Does(cfg, s.log, t, u.log)
  {
    hide HealthTick, Invariant, Due;
    if t == Health && ok {
      TickDuty(cfg, s, now);
    }
  }

  lemma AnnounceDuty(cfg: Config, s: State, available: bool, ok: bool, now: int)
    requires s.health == Announce(available) && Dutiful(cfg, s, Health)
    ensures var u := Move(cfg, s, Health, ok, now); Dutiful(cfg, u, Health) && Does(cfg, s.log, Health, u.log)
  {
    var e := if available then Available else Unavailable;
    OwnDue(cfg, s.log, Health, e);
    AnnounceLog(cfg, s, Health, available, ok, now);
    AnnounceOwnPc(cfg, s, available, ok, now);
    hide Move, Due;
  }

  lemma AnnounceOwnPc(cfg: Config, s: State, available: bool, ok: bool, now: int)
    requires s.health == Announce(available)
    ensures Move(cfg, s, Health, ok, now).health == if available then Idle else AfterUnavailable(cfg)
  {
    hide AfterUnavailable;
  }

  lemma RestoredDuty(cfg: Config, s: State, ok: bool, now: int)
    requires Invariant(cfg, s) && s.health == Restored && Dutiful(cfg, s, Health)
    ensures var u := Move(cfg, s, Health, ok, now); Dutiful(cfg, u, Health) && Does(cfg, s.log, Health, u.log)
  {
    OfflineIsWedged(cfg, s);
    hide Invariant, Due, Offline;
  }

  lemma EndDuty(cfg: Config, s: State, ok: bool, now: int)
    requires (s.main == Joining || s.main == Closing) && Dutiful(cfg, s, Main)
    ensures var u := Move(cfg, s, Main, ok, now); Dutiful(cfg, u, Main) && Does(cfg, s.log, Main, u.log)
  {
    ForeignDue(cfg, s.log, Main, Disconnect);
    hide Due;
  }

  lemma OwnDuty(cfg: Config, s: State, t: Thread, ok: bool, now: int)
    requires Invariant(cfg, s) && Dutiful(cfg, s, t)
    ensures var u := Move(cfg, s, t, ok, now); Dutiful(cfg, u, t) && Does(cfg, s.log, t, u.log)
  {
    WhoseStep(cfg, s, t);
    hide Invariant, IdleStep, Unlock, Proceed, Entered, AfterUnavailable, Dutiful, Does;
    match PcOf(s, t)
    case Dormant =>
      if t == Main {
        StartDuty(cfg, s, ok, now);
      } else {
        DoesNothing(cfg, s, t);
      }
    case Idle => IdleDuty(cfg, s, t, ok, now);
    case Announce(available) => AnnounceDuty(cfg, s, available, ok, now);
    case Restored => RestoredDuty(cfg, s, ok, now);
    case Want(site) =>
      WantsOwn(cfg, s, t);
      EnterDuty(cfg, s, t, site);
      DoesNothing(cfg, s, t);
    case In(site, at) =>
      InsideFacts(cfg, s, t);
      if at.Return? {
        LeaveDuty(cfg, s, t, site, at.outcome);
      } else {
        MoveIn(cfg, s, t, site, at, ok, now);
        ProceedDuty(cfg, s, t, site, at, ok, now);
      }
    case Joining => EndDuty(cfg, s, ok, now);
    case Closing => EndDuty(cfg, s, ok, now);
    case Ended => DoesNothing(cfg, s, t);
  }

  lemma DoesNothing(cfg: Config, s: State, t: Thread)
    ensures Does(cfg, s.log, t, s.log)
  {
  }

  // ---------- The moves of others ----------

  /** What is recorded by others belongs to others. */
  predicate Foreign(l: Log, t: Thread, k: Log) {
    k == l || (k.Then? && k.before == l && !Owns(t, k.event))
  }

  lemma OthersForeign(cfg: Config, s: State, t: Thread, a: Action)
    requires Invariant(cfg, s) && !(a.Act? && a.t == t)
    ensures Foreign(s.log, t, Step(cfg, s, a).log)
  {
    hide Invariant, Move;
    if a.Act? {
      MoveForeign(cfg, s, t, a.t, a.ok, a.now);
    }
  }

  lemma MoveForeign(cfg: Config, s: State, t: Thread, x: Thread, ok: bool, now: int)
    requires Invariant(cfg, s) && x != t
    ensures Foreign(s.log, t, Move(cfg, s, x, ok, now).log)
  {
    WhoseStep(cfg, s, x);
    hide Invariant, IdleStep, Move, Entered;
    match PcOf(s, x)
    case Idle =>
      MoveIdle(cfg, s, x, ok, now);
      IdleGrows(cfg, s, x, ok, now);
      TicksAreHealths(cfg, s, x, ok, now);
    case In(site, at) =>
      InsideFacts(cfg, s, x);
      hide Call;
      InsideGrows(cfg, s, x, site, at, ok, now);
      if Call(cfg, s, site, at, ok, now).Some? {
        CallsAreNoDuty(cfg, s, t, site, at, ok, now);
      }
    case Want(site) =>
      WantsOwn(cfg, s, x);
      EnteredLog(s, x, site);
      WantMoves(cfg, s, x, site, ok, now);
    case Announce(available) => AnnounceLog(cfg, s, x, available, ok, now);
    case Dormant => DormantMoves(cfg, s, x, ok, now);
    case _ => EndMoves(cfg, s, x, ok, now);
  }

  lemma TicksAreHealths(cfg: Config, s: State, x: Thread, ok: bool, now: int)
    ensures x != Health ==> IdleStep(cfg, s, x, ok, now).log == s.log
  {
    hide HealthTick;
  }

  lemma WantMoves(cfg: Config, s: State, x: Thread, site: Site, ok: bool, now: int)
    requires PcOf(s, x) == Want(site)
    ensures Move(cfg, s, x, ok, now) == if s.resetMu.Some? then s else Entered(s, x, site)
  {
    hide Entered;
  }

  lemma DormantMoves(cfg: Config, s: State, x: Thread, ok: bool, now: int)
    requires PcOf(s, x) == Dormant
    ensures Move(cfg, s, x, ok, now).log == if x == Main then Then(s.log, Enter(StartUp)) else s.log
  {
  }

  lemma EndMoves(cfg: Config, s: State, x: Thread, ok: bool, now: int)
    requires PcOf(s, x) in [Restored, Joining, Closing, Ended]
    ensures Move(cfg, s, x, ok, now).log == if PcOf(s, x) == Closing then Then(s.log, Disconnect) else s.log
  {
  }

  /** Being launched is no change of duty. */
  lemma OthersDuty(cfg: Config, s: State, u: State, t: Thread)
    requires Dutiful(cfg, s, t) && Foreign(s.log, t, u.log) && Stays(PcOf(s, t), PcOf(u, t))
    requires PcOf(s, t) == Dormant && PcOf(u, t) == Idle ==> t != Main
    ensures Dutiful(cfg, u, t)
  {
    hide Due, Owns, Offline;
    if u.log != s.log {
      ForeignDue(cfg, s.log, t, u.log.event);
    }
  }

  lemma MainStartsItself(cfg: Config, s: State, a: Action)
    requires Invariant(cfg, s) && !(a.Act? && a.t == Main) && s.main == Dormant
    ensures Step(cfg, s, a).main == Dormant
  {
  }

  lemma StepKeepsDuty(cfg: Config, s: State, t: Thread, a: Action)
    requires Invariant(cfg, s) && Dutiful(cfg, s, t)
    ensures Dutiful(cfg, Step(cfg, s, a), t)
    ensures Does(cfg, s.log, t, Step(cfg, s, a).log)
  {
    hide Invariant, Dutiful, Move, Happen;
    if a.Act? && a.t == t {
      OwnDuty(cfg, s, t, a.ok, a.now);
    } else {
      OthersForeign(cfg, s, t, a);
      OthersStay(cfg, s, t, a);
      if t == Main && s.main == Dormant {
        MainStartsItself(cfg, s, a);
      }
      OthersDuty(cfg, s, Step(cfg, s, a), t);
    }
  }

  // ---------- Every run ----------

  /** In every reachable state every thread stands where its duty puts it. */
  lemma {:induction false} AlwaysDutiful(cfg: Config, actions: seq<Action>, t: Thread)
    ensures Dutiful(cfg, Execute(cfg, actions), t)
  {
    if actions != [] {
      AlwaysDutiful(cfg, actions[..|actions| - 1], t);
      RunSafety(cfg, actions[..|actions| - 1]);
      hide Execute, Step;
      StepKeepsDuty(cfg, Execute(cfg, actions[..|actions| - 1]), t, actions[|actions| - 1]);
    }
  }

  /** In every run every event of a thread's program is the one its duty calls for. */
  lemma InOrder(cfg: Config, actions: seq<Action>, b: Log, e: Event, t: Thread)
    requires Continued(Execute(cfg, actions).log, b, e) && Owns(t, e)
    ensures Discharges(cfg, Due(cfg, b, t), t, e)
  {
    var k := MomentOf(cfg, actions, b, e);
    AlwaysDutiful(cfg, actions[..k], t);
    RunSafety(cfg, actions[..k]);
    hide Execute, Step, Owns, Discharges, Due, Dutiful;
    StepKeepsDuty(cfg, Execute(cfg, actions[..k]), t, actions[k]);
    Longer(b, e);
  }

  /** The ladder has no gap: once a reconnect or reboot of the health check has failed, the loop stands
      before the power cycle if there is a plug, and whatever happens next in its program is the entry of
      that power cycle; once a reconnect has recovered, the same holds of the reboot. */
  lemma LadderHasNoGap(cfg: Config, actions: seq<Action>, b: Log, site: Site, outcome: Outcome, e: Event)
    requires site == TickReconnect || site == TickReboot
    requires LastOwn(b, Health) == Some(Leave(site, outcome))
    requires if outcome == Recovered then site == TickReconnect else cfg.topic != ""
    ensures var next := if outcome == Recovered then TickReboot else TickCycle;
            && (Execute(cfg, actions).log == b ==> Execute(cfg, actions).health == Want(next))
            && (Continued(Execute(cfg, actions).log, b, e) && Owns(Health, e) ==> e == Enter(next))
  {
    AlwaysDutiful(cfg, actions, Health);
    hide Execute, Continued;
    if Continued(Execute(cfg, actions).log, b, e) && Owns(Health, e) {
      InOrder(cfg, actions, b, e, Health);
    }
  }

  // ---------- The loops end by Stop only ----------

  predicate Held(s: State) {
    (s.health == Ended ==> s.stopping) && (s.periodic == Ended ==> s.stopping)
  }

  lemma StopIsSticky(cfg: Config, s: State, a: Action)
    requires s.stopping
    ensures Step(cfg, s, a).stopping
  {
    hide Happen, HealthTick, AfterUnavailable, Called, Next, Unlock, Entered;
    if a.Act? {
      MoveSticky(cfg, s, a.t, a.ok, a.now);
    } else {
      HappenFrame(s, Lost);
    }
  }

  lemma MoveSticky(cfg: Config, s: State, t: Thread, ok: bool, now: int)
    requires s.stopping
    ensures Move(cfg, s, t, ok, now).stopping
  {
    hide IdleStep, Unlock, Proceed, Entered, AfterUnavailable;
    match PcOf(s, t)
    case Idle => IdleSticky(cfg, s, t, ok, now);
    case Want(site) => EnteredSticky(s, t, site);
    case In(site, at) =>
      if at.Return? {
        UnlockSticky(cfg, s, t, site, at.outcome);
      } else {
        MoveIn(cfg, s, t, site, at, ok, now);
        ProceedSticky(cfg, s, t, site, at, ok, now);
      }
    case _ =>
  }

  lemma IdleSticky(cfg: Config, s: State, t: Thread, ok: bool, now: int)
    requires s.stopping
    ensures IdleStep(cfg, s, t, ok, now).stopping
  {
    hide IsStale, AfterUnavailable;
  }

  lemma EnteredSticky(s: State, t: Thread, site: Site)
    requires s.stopping
    ensures Entered(s, t, site).stopping
  {
    hide First, ProcedureAt;
  }

  lemma UnlockSticky(cfg: Config, s: State, t: Thread, site: Site, outcome: Outcome)
    requires s.stopping
    ensures Unlock(cfg, s, t, site, outcome).stopping
  {
    hide After, Launches;
  }

  lemma ProceedSticky(cfg: Config, s: State, t: Thread, site: Site, at: At, ok: bool, now: int)
    requires s.stopping
    ensures Proceed(cfg, s, t, site, at, ok, now).stopping
  {
    hide Called, Next, Offline, Stale, SoftFailed, Inside;
    CalledFrame(cfg, s, site, at, ok, now);
  }

  /** A loop ends only when it finds itself stopped. */
  lemma EndsStopped(cfg: Config, s: State, t: Thread, ok: bool, now: int)
    requires t != Main && PcOf(s, t) != Ended && PcOf(Move(cfg, s, t, ok, now), t) == Ended
    requires PcOf(s, t).Joining? || PcOf(s, t).Closing? ==> t.Main?
    ensures s.stopping
  {
    hide Unlock, Proceed, Entered;
    match PcOf(s, t)
    case Want(site) => EnteredOwnPc(s, t, site);
    case In(site, at) =>
      if at.Return? {
        ReturnsNotEnded(cfg, s, t, site, at.outcome);
      } else {
        MoveIn(cfg, s, t, site, at, ok, now);
        hide Called, Next;
        PcAfter(Called(cfg, s, site, at, ok, now), t, In(site, Next(cfg, s, t, ProcedureAt(site), at, ok, now)));
        ProceedOwnPc(cfg, s, t, site, at, ok, now);
      }
    case _ =>
  }

  lemma ReturnsNotEnded(cfg: Config, s: State, t: Thread, site: Site, outcome: Outcome)
    ensures PcOf(Unlock(cfg, s, t, site, outcome), t) != Ended
  {
  }

  lemma LoopStepHeld(cfg: Config, s: State, t: Thread, a: Action)
    requires Invariant(cfg, s) && t != Main && (PcOf(s, t) == Ended ==> s.stopping)
    ensures PcOf(Step(cfg, s, a), t) == Ended ==> Step(cfg, s, a).stopping
  {
    hide Invariant, Move, Happen;
    WhoseStep(cfg, s, t);
    if s.stopping {
      StopIsSticky(cfg, s, a);
    } else if a.Act? && a.t == t {
      if PcOf(Step(cfg, s, a), t) == Ended {
        EndsStopped(cfg, s, t, a.ok, a.now);
      }
    } else {
      OthersStay(cfg, s, t, a);
    }
  }

  /** In every run the health and the periodic loop end only after Stop has closed the stop channel. */
  lemma {:induction false} LoopsEndByStop(cfg: Config, actions: seq<Action>)
    ensures Held(Execute(cfg, actions))
  {
    if actions != [] {
      var before, a := Execute(cfg, actions[..|actions| - 1]), actions[|actions| - 1];
      LoopsEndByStop(cfg, actions[..|actions| - 1]);
      RunSafety(cfg, actions[..|actions| - 1]);
      hide Execute, Step;
      LoopStepHeld(cfg, before, Health, a);
      LoopStepHeld(cfg, before, Periodic, a);
    }
  }
}
