/** The recovery supervisor (app/app.go) as interleaved threads: main (Start, then Stop), the health
    loop and the periodic loop, all using resetMu, with every outcome of a call, the loss of the
    connection, contact from the gateway and cancellation left to the environment. */
module Supervisor {
  import opened Bytes
  import opened RunLog

  datatype Thread = Main | Health | Periodic

  /** Where a thread stands inside a recovery procedure; the number is the backoff slot. */
  datatype At =
    | Check                 // doPowerCycle up to its debounce
    | Halt                  // stopHeartbeatFn
    | Ask                   // Reboot
    | Cut                   // publish OFF
    | HangUp                // Disconnect
    | Dwell
    | Restore(aborted: bool) // publish ON
    | Wait(slot: nat)
    | Connect(slot: nat)
    | Login(slot: nat)
    | Load(slot: nat)
    | Cleanup(slot: nat)    // Disconnect after a failed attempt
    | Register
    | Revive                // startHeartbeatFn
    | Return(outcome: Outcome)

  datatype Pc =
    | Dormant                   // not started
    | Idle                      // a loop between ticks; main after Start
    | Announce(available: bool) // wedged has been flipped, the MarkAll call is next
    | Restored                  // recovered; about to clear wedged
    | Want(site: Site)          // about to lock resetMu
    | In(site: Site, at: At)    // inside; holds resetMu except during StartUp
    | Joining                   // Stop waits for the loops
    | Closing                   // last Disconnect of Stop
    | Ended

  datatype State = State(
    main: Pc, health: Pc, periodic: Pc,
    resetMu: Option<Thread>,
    stopping: bool,      // stopCh is closed
    cancelled: bool,     // the context of Start is done
    heartbeat: bool,
    connected: bool,
    lastPowerCycle: int,
    lastContact: int,
    wedged: bool,
    log: Log)

  const Initial := State(Dormant, Dormant, Dormant, None, false, false, false, false, 0, 0, false, Empty)

  function PcOf(s: State, t: Thread): Pc {
    match t
    case Main => s.main
    case Health => s.health
    case Periodic => s.periodic
  }

  function Goto(s: State, t: Thread, pc: Pc): State {
    match t
    case Main => s.(main := pc)
    case Health => s.(health := pc)
    case Periodic => s.(periodic := pc)
  }

  function Owner(site: Site): Thread {
    match site
    case StartUp | StartCycle | StartReboot | Shutdown => Main
    case TickReconnect | TickReboot | TickCycle => Health
    case TimedCycle | TimedReboot => Periodic
  }

  // ---------- The procedures ----------

  function First(p: Procedure): At {
    match p
    case BringUp => Connect(0)
    case PowerCycle => Check
    case Reconnect | Reboot | Halting => Halt
  }

  function AfterHalt(p: Procedure): At {
    match p
    case Halting => Return(Halted)
    case PowerCycle => Cut
    case Reboot => Ask
    case _ => HangUp
  }

  function AfterHangUp(p: Procedure): At {
    match p
    case PowerCycle => Dwell
    case Reboot => Wait(0)
    case _ => Connect(0)
  }

  /** A failed attempt ends a bring-up or reconnect, and costs the other procedures a slot. */
  function AfterFailure(p: Procedure, slot: nat): At {
    if p.BringUp? || p.Reconnect? then Return(Unreachable) else Cleanup(slot)
  }

  predicate Refusing(cfg: Config) {
    !cfg.wired || cfg.topic == ""
  }

  predicate Debouncing(s: State, now: int) {
    s.lastPowerCycle != 0 && now - s.lastPowerCycle < GAP
  }

  /** The context of the loops is never done. */
  predicate ContextDone(s: State, t: Thread) {
    s.cancelled && t.Main?
  }

  /** The call a thread makes at one place of a procedure. ok is the outcome of the call, or that a
      timer fired before the context was done; now is what the clock shows. */
  function Call(cfg: Config, s: State, site: Site, at: At, ok: bool, now: int): Option<Event> {
    match at
    case Check => if Refusing(cfg) || Debouncing(s, now) then None else Some(Stamp(now))
    case Halt => if s.heartbeat then Some(StopHeartbeat) else None
    case Ask => Some(RebootRequest)
    case Cut => Some(Publish(site, cfg.topic, false, false))
    case HangUp => Some(Disconnect)
    case Dwell => None
    case Restore(_) => Some(Publish(site, cfg.topic, true, false))
    case Wait(_) => None
    case Connect(_) => Some(Dial(ok))
    case Login(_) => if ok then Some(LoggedIn) else None
    case Load(_) => if ok then Some(Loaded) else None
    case Cleanup(_) => Some(Disconnect)
    case Register => if ok then Some(Registered) else None
    case Revive => Some(StartHeartbeat)
    case Return(_) => None
  }

  /** Where the thread stands afterwards. */
  function Next(cfg: Config, s: State, t: Thread, p: Procedure, at: At, ok: bool, now: int): At {
    match at
    case Check =>
      if Refusing(cfg) then Return(Refused) else if Debouncing(s, now) then Return(Debounced) else Halt
    case Halt => AfterHalt(p)
    case Ask => HangUp
    case Cut => HangUp
    case HangUp => AfterHangUp(p)
    case Dwell => if ok || ContextDone(s, t) then Restore(!ok) else at
    case Restore(aborted) => if aborted then Return(Cancelled) else Wait(0)
    case Wait(slot) =>
      if slot >= SLOTS then Return(Exhausted)
      else if ok then Connect(slot)
      else if ContextDone(s, t) then Return(Cancelled)
      else at
    case Connect(slot) => if ok then Login(slot) else AfterFailure(p, slot)
    case Login(slot) => if ok then Load(slot) else AfterFailure(p, slot)
    case Load(slot) => if ok then Register else AfterFailure(p, slot)
    case Cleanup(slot) => Wait(slot + 1)
    case Register => if ok then Revive else Return(RegisterFailed)
    case Revive => Return(Recovered)
    case Return(_) => at
  }

  /** A call is recorded and changes the field it is about. */
  function Happen(s: State, e: Event): State {
    var u := s.(log := Then(s.log, e));
    match e
    case StopHeartbeat => u.(heartbeat := false)
    case StartHeartbeat => u.(heartbeat := true)
    case Dial(ok) => u.(connected := s.connected || ok)
    case Disconnect => u.(connected := false)
    case Lost => u.(connected := false)
    case Stamp(now) => u.(lastPowerCycle := now)
    case _ => u
  }

  function Called(cfg: Config, s: State, site: Site, at: At, ok: bool, now: int): State {
    var call := Call(cfg, s, site, at, ok, now);
    var u := if call.Some? then Happen(s, call.value) else s;
    if at.Load? && ok then u.(lastContact := now) else u
  }

  function Proceed(cfg: Config, s: State, t: Thread, site: Site, at: At, ok: bool, now: int): State {
    var u := Called(cfg, s, site, at, ok, now);
    Goto(u, t, In(site, Next(cfg, s, t, ProcedureAt(site), at, ok, now)))
  }

  // ---------- What callers do with the outcome ----------

  function Escalate(cfg: Config): Pc {
    if cfg.topic == "" then Idle else Want(TickCycle)
  }

  function After(cfg: Config, site: Site, outcome: Outcome): Pc {
    match site
    case StartUp =>
      if outcome == Recovered then Want(StartReboot)
      else if outcome == Unreachable && cfg.topic != "" then Want(StartCycle)
      else Idle
    case StartCycle | StartReboot => Idle
    case TickReconnect => if outcome == Recovered then Want(TickReboot) else Escalate(cfg)
    case TickReboot => if outcome == Recovered then Restored else Escalate(cfg)
    case TickCycle => if outcome == Recovered then Restored else Idle
    case TimedCycle => if outcome == Recovered || outcome == Debounced then Idle else Want(TimedReboot)
    case TimedReboot => Idle
    case Shutdown => Joining
  }

  /** Start launches the loops once the bring-up is complete. */
  predicate Launches(site: Site, outcome: Outcome) {
    (site == StartCycle || site == StartReboot) && outcome == Recovered
  }

  function Unlock(cfg: Config, s: State, t: Thread, site: Site, outcome: Outcome): State {
    var u := Goto(Happen(s.(resetMu := None), Leave(site, outcome)), t, After(cfg, site, outcome));
    if Launches(site, outcome) then
      u.(health := if cfg.healthInterval > 0 then Idle else Dormant,
        periodic := if cfg.periodicLoop then Idle else Dormant)
    else u
  }

  /** The state after the mutex has been obtained. */
  function Entered(s: State, t: Thread, site: Site): State {
    Goto(Happen(s.(resetMu := Some(t)), Enter(site)), t, In(site, First(ProcedureAt(site))))
  }

  // ---------- The loops, Start and Stop ----------

  function AfterUnavailable(cfg: Config): Pc {
    if cfg.restartOnError then Want(TickReconnect) else Idle
  }

  /** The last contact is longer ago than twice the health-check interval, which is in seconds. */
  predicate TooOld(cfg: Config, lastContact: int, now: int) {
    now - lastContact > 2 * (cfg.healthInterval * 1_000_000_000)
  }

  predicate IsStale(cfg: Config, s: State, now: int) {
    TooOld(cfg, s.lastContact, now)
  }

  /** One tick of the health check, up to its first call of the cover manager. */
  function HealthTick(cfg: Config, s: State, now: int): State {
    var stale := IsStale(cfg, s, now);
    var u := Happen(s, Tick(stale));
    if s.wedged == stale then u.(health := if stale then AfterUnavailable(cfg) else Idle)
    else u.(wedged := stale, health := Announce(!stale))
  }

  function IdleStep(cfg: Config, s: State, t: Thread, ok: bool, now: int): State {
    match t
    case Main => s.(stopping := true, main := Want(Shutdown))
    case Health => if ok then HealthTick(cfg, s, now) else if s.stopping then s.(health := Ended) else s
    case Periodic =>
      if ok then s.(periodic := Want(if cfg.periodicPowerCycle && cfg.topic != "" then TimedCycle else TimedReboot))
      else if s.stopping then s.(periodic := Ended) else s
  }

  predicate Over(pc: Pc) {
    pc == Dormant || pc == Ended
  }

  function Move(cfg: Config, s: State, t: Thread, ok: bool, now: int): State {
    match PcOf(s, t)
    case Dormant =>
      if t.Main? then Happen(s.(lastContact := now, main := In(StartUp, Connect(0))), Enter(StartUp)) else s
    case Idle => IdleStep(cfg, s, t, ok, now)
    case Announce(available) =>
      Goto(Happen(s, if available then Available else Unavailable), t,
        if available then Idle else AfterUnavailable(cfg))
    case Restored =>
      if s.wedged then Goto(s.(wedged := false), t, Announce(true)) else Goto(s, t, Idle)
    case Want(site) =>
      if s.resetMu.Some? then s
      else Entered(s, t, site)
    case In(site, Return(outcome)) => Unlock(cfg, s, t, site, outcome)
    case In(site, at) => Proceed(cfg, s, t, site, at, ok, now)
    case Joining => if Over(s.health) && Over(s.periodic) then s.(main := Closing) else s
    case Closing => Happen(s.(main := Ended), Disconnect)
    case Ended => s
  }

  datatype Action =
    | Act(t: Thread, ok: bool, now: int)
    | Lose                  // the connection goes down
    | Contact(now: int)     // a frame or a heartbeat confirmation arrives
    | Cancel

  function Step(cfg: Config, s: State, a: Action): State {
    match a
    case Act(t, ok, now) => Move(cfg, s, t, ok, now)
    case Lose => if s.connected then Happen(s, Lost) else s
    case Contact(now) => s.(lastContact := now)
    case Cancel => s.(cancelled := true)
  }

  function Execute(cfg: Config, actions: seq<Action>): State {
    if actions == [] then Initial else Step(cfg, Execute(cfg, actions[..|actions| - 1]), actions[|actions| - 1])
  }

  lemma ExecuteOne(cfg: Config, actions: seq<Action>, a: Action)
    ensures Execute(cfg, actions + [a]) == Step(cfg, Execute(cfg, actions), a)
  {
    hide Step;
    var all := actions + [a];
    assert all[..|all| - 1] == actions;
  }

  // ---------- Invariant ----------

  /** The power is off exactly from the publish of OFF to the publish of ON. */
  predicate Dark(p: Procedure, at: At) {
    p.PowerCycle? && (at.HangUp? || at.Dwell? || at.Restore?)
  }

  /** What holds at each place inside a procedure. */
  predicate Inner(cfg: Config, l: Log, p: Procedure, at: At) {
    && (PlugOff(l) <==> Dark(p, at))
    && (p.PowerCycle? && !at.Check? && !at.Return? ==> cfg.topic != "")
    && (!at.Check? && !at.Halt? && !at.Return? ==> !Beating(l))
    && match at
       case Check => p.PowerCycle? && Attempts(l) == 0 && !Touched(l)
       case Halt => !p.BringUp? && Attempts(l) == 0 && (p.PowerCycle? ==> Stamped(l))
       case Ask => p.Reboot? && Attempts(l) == 0
       case Cut => p.PowerCycle? && Attempts(l) == 0 && Stamped(l)
       case HangUp => (p.PowerCycle? || p.Reboot? || p.Reconnect?) && Attempts(l) == 0
       case Dwell => p.PowerCycle? && Attempts(l) == 0 && !Up(l)
       case Restore(_) => p.PowerCycle? && Attempts(l) == 0 && !Up(l)
       case Wait(slot) => Slots(p) == SLOTS && Attempts(l) == slot <= SLOTS && !Up(l)
       case Connect(slot) => slot < Slots(p) && Attempts(l) == slot && !Up(l)
       case Login(slot) => slot < Slots(p) && Attempts(l) == slot + 1 && Progress(l) == 1
       case Load(slot) => slot < Slots(p) && Attempts(l) == slot + 1 && Progress(l) == 2
       case Cleanup(slot) => Slots(p) == SLOTS && slot < SLOTS && Attempts(l) == slot + 1
       case Register => Slots(p) > 0 && Progress(l) == 3
       case Revive => Slots(p) > 0 && Progress(l) == 4
       case Return(o) =>
         && (o == Recovered ==> Progress(l) == 5 && Beating(l))
         && (o == Exhausted ==> Attempts(l) == SLOTS && !Up(l) && !Beating(l))
         && (o in [Cancelled, Unreachable, RegisterFailed, Halted] ==> !Beating(l))
         && (o in [Debounced, Refused] ==> Attempts(l) == 0 && !Touched(l))
         && (p.Halting? ==> o == Halted)
  }

  predicate HealthReason(cfg: Config, s: State, site: Site) {
    && (Owner(site) == Health ==> cfg.restartOnError && Stale(s.log))
    && (site == TickCycle ==> cfg.topic != "" && SoftFailed(s.log))
  }

  predicate Starting(site: Site) {
    site == StartUp || site == StartCycle || site == StartReboot
  }

  predicate LoopsDormant(s: State) {
    s.health == s.periodic == Dormant
  }

  /** What holds of one thread. */
  predicate ThreadOk(cfg: Config, s: State, t: Thread) {
    match PcOf(s, t)
    case Dormant => t.Main? ==> s.log == Empty && s.resetMu == None && LoopsDormant(s)
    case Idle => true
    case Announce(available) => t.Health? && s.wedged == !available && (!available ==> Stale(s.log))
    case Restored => t.Health?
    case Want(site) =>
      && Owner(site) == t && site != StartUp && HealthReason(cfg, s, site)
      && (Starting(site) ==> LoopsDormant(s)) && (site == Shutdown ==> s.stopping)
    case In(site, at) =>
      && Owner(site) == t && HealthReason(cfg, s, site)
      && Inside(s.log) == Some(site) && Inner(cfg, s.log, ProcedureAt(site), at)
      && (Starting(site) ==> LoopsDormant(s)) && (site == Shutdown ==> s.stopping)
      && s.resetMu == if site == StartUp then None else Some(t)
    case Joining => t.Main? && s.stopping
    case Closing => t.Main? && s.stopping && Over(s.health) && Over(s.periodic)
    case Ended => t.Main? ==> Over(s.health) && Over(s.periodic) && !s.connected
  }

  /** The history is lawful and explains the fields. */
  predicate Coherent(cfg: Config, s: State) {
    && Lawful(cfg, s.log)
    && s.heartbeat == Beating(s.log)
    && s.connected == Up(s.log)
    && s.lastPowerCycle == (if LastStamp(s.log).Some? then LastStamp(s.log).value else 0)
  }

  predicate Invariant(cfg: Config, s: State) {
    && Coherent(cfg, s)
    && Offline(s.log) == (if s.health.Announce? then s.health.available else s.wedged)
    && (Inside(s.log).Some? ==> PcOf(s, Owner(Inside(s.log).value)).In?)
    && (Inside(s.log) == None ==> !PlugOff(s.log))
    && (s.resetMu.Some? ==> PcOf(s, s.resetMu.value).In?)
    && ThreadOk(cfg, s, Main) && ThreadOk(cfg, s, Health) && ThreadOk(cfg, s, Periodic)
  }

  lemma HappenKeepsCoherent(cfg: Config, s: State, e: Event)
    requires Coherent(cfg, s) && Allowed(cfg, s.log, e)
    ensures Coherent(cfg, Happen(s, e))
  {
  }

  /** A call inside a procedure is allowed. */
  lemma CallAllowed(cfg: Config, s: State, site: Site, at: At, ok: bool, now: int)
    requires Coherent(cfg, s) && Inside(s.log) == Some(site)
    requires HealthReason(cfg, s, site) && Inner(cfg, s.log, ProcedureAt(site), at)
    requires Call(cfg, s, site, at, ok, now).Some?
    ensures Allowed(cfg, s.log, Call(cfg, s, site, at, ok, now).value)
  {
    hide Lawful, PlugOff, Beating, Up, Inside, Attempts, Progress, LastStamp, Stamped, Stale, SoftFailed;
  }

  predicate Attempting(at: At) {
    at.Wait? || at.Connect? || at.Login? || at.Load? || at.Cleanup? || at.Register? || at.Revive? || at.Return?
  }

  lemma AttemptNext(cfg: Config, s: State, t: Thread, site: Site, at: At, ok: bool, now: int)
    requires Attempting(at)
    requires s.heartbeat == Beating(s.log) && s.connected == Up(s.log)
    requires Inner(cfg, s.log, ProcedureAt(site), at)
    ensures var call := Call(cfg, s, site, at, ok, now);
            var l := if call.Some? then Then(s.log, call.value) else s.log;
            Inner(cfg, l, ProcedureAt(site), Next(cfg, s, t, ProcedureAt(site), at, ok, now))
  {
  }

  lemma PreludeNext(cfg: Config, s: State, t: Thread, site: Site, at: At, ok: bool, now: int)
    requires !Attempting(at)
    requires s.heartbeat == Beating(s.log) && s.connected == Up(s.log)
    requires Inner(cfg, s.log, ProcedureAt(site), at)
    ensures var call := Call(cfg, s, site, at, ok, now);
            var l := if call.Some? then Then(s.log, call.value) else s.log;
            Inner(cfg, l, ProcedureAt(site), Next(cfg, s, t, ProcedureAt(site), at, ok, now))
  {
  }

  /** And leads to the next place of the procedure. */
  lemma InnerNext(cfg: Config, s: State, t: Thread, site: Site, at: At, ok: bool, now: int)
    requires s.heartbeat == Beating(s.log) && s.connected == Up(s.log)
    requires Inner(cfg, s.log, ProcedureAt(site), at)
    ensures var call := Call(cfg, s, site, at, ok, now);
            var l := if call.Some? then Then(s.log, call.value) else s.log;
            Inner(cfg, l, ProcedureAt(site), Next(cfg, s, t, ProcedureAt(site), at, ok, now))
  {
    hide Inner, Next, Call, Beating, Up;
    if Attempting(at) {
      AttemptNext(cfg, s, t, site, at, ok, now);
    } else {
      PreludeNext(cfg, s, t, site, at, ok, now);
    }
  }

  /** Calls inside procedures touch neither availability, nor the health check, nor who is inside. */
  lemma CallIsLocal(cfg: Config, s: State, site: Site, at: At, ok: bool, now: int)
    requires Call(cfg, s, site, at, ok, now).Some?
    ensures var l := Then(s.log, Call(cfg, s, site, at, ok, now).value);
            && Offline(l) == Offline(s.log) && Inside(l) == Inside(s.log)
            && Stale(l) == Stale(s.log) && SoftFailed(l) == SoftFailed(s.log)
  {
    var e := Call(cfg, s, site, at, ok, now).value;
    assert !e.Enter? && !e.Leave? && !e.Tick? && !e.Available? && !e.Unavailable?;
    hide Call;
  }

  lemma HappenFrame(s: State, e: Event)
    ensures var u := Happen(s, e);
            u == s.(log := Then(s.log, e), heartbeat := u.heartbeat, connected := u.connected,
              lastPowerCycle := u.lastPowerCycle)
  {
  }

  lemma MoveIn(cfg: Config, s: State, t: Thread, site: Site, at: At, ok: bool, now: int)
    requires PcOf(s, t) == In(site, at) && !at.Return?
    ensures Move(cfg, s, t, ok, now) == Proceed(cfg, s, t, site, at, ok, now)
  {
    hide Proceed;
  }

  lemma SameHistory(cfg: Config, s: State, u: State)
    requires Coherent(cfg, s)
    requires u.log == s.log && u.heartbeat == s.heartbeat && u.connected == s.connected
             && u.lastPowerCycle == s.lastPowerCycle
    ensures Coherent(cfg, u)
  {
  }

  lemma CoherentFields(cfg: Config, s: State)
    requires Coherent(cfg, s)
    ensures s.heartbeat == Beating(s.log) && s.connected == Up(s.log)
  {
  }

  lemma GotoHistory(s: State, t: Thread, pc: Pc)
    ensures var u := Goto(s, t, pc);
            u.log == s.log && u.heartbeat == s.heartbeat && u.connected == s.connected
              && u.lastPowerCycle == s.lastPowerCycle
  {
  }

  lemma CalledKeepsCoherent(cfg: Config, s: State, site: Site, at: At, ok: bool, now: int)
    requires Coherent(cfg, s) && Inside(s.log) == Some(site)
    requires HealthReason(cfg, s, site) && Inner(cfg, s.log, ProcedureAt(site), at)
    ensures Coherent(cfg, Called(cfg, s, site, at, ok, now))
  {
    hide Call, Happen, Inner, Coherent, Inside, Allowed, HealthReason, ProcedureAt;
    var call := Call(cfg, s, site, at, ok, now);
    var u := s;
    if call.Some? {
      CallAllowed(cfg, s, site, at, ok, now);
      HappenKeepsCoherent(cfg, s, call.value);
      u := Happen(s, call.value);
    }
    SameHistory(cfg, u, Called(cfg, s, site, at, ok, now));
  }

  /** What a call changes, and what it leaves to the other threads. */
  lemma CalledFrame(cfg: Config, s: State, site: Site, at: At, ok: bool, now: int)
    ensures var u := Called(cfg, s, site, at, ok, now);
            var call := Call(cfg, s, site, at, ok, now);
            && u.log == (if call.Some? then Then(s.log, call.value) else s.log)
            && u == s.(log := u.log, heartbeat := u.heartbeat, connected := u.connected,
                       lastPowerCycle := u.lastPowerCycle, lastContact := u.lastContact)
            && Offline(u.log) == Offline(s.log) && Inside(u.log) == Inside(s.log)
            && Stale(u.log) == Stale(s.log) && SoftFailed(u.log) == SoftFailed(s.log)
  {
    hide Call, Happen, Offline, Stale, SoftFailed, Inside;
    var call := Call(cfg, s, site, at, ok, now);
    if call.Some? {
      CallIsLocal(cfg, s, site, at, ok, now);
      HappenFrame(s, call.value);
    }
  }

  /** A step inside a procedure, seen from inside. */
  lemma InnerStep(cfg: Config, s: State, t: Thread, site: Site, at: At, ok: bool, now: int)
    requires Coherent(cfg, s) && Inside(s.log) == Some(site)
    requires HealthReason(cfg, s, site) && Inner(cfg, s.log, ProcedureAt(site), at)
    ensures var u := Proceed(cfg, s, t, site, at, ok, now);
            Coherent(cfg, u) && Inner(cfg, u.log, ProcedureAt(site), Next(cfg, s, t, ProcedureAt(site), at, ok, now))
  {
    hide Call, Called, Next, Inner, Coherent, Inside, Beating, Up, HealthReason, Goto, ProcedureAt;
    CoherentFields(cfg, s);
    InnerNext(cfg, s, t, site, at, ok, now);
    CalledKeepsCoherent(cfg, s, site, at, ok, now);
    CalledFrame(cfg, s, site, at, ok, now);
    var u := Called(cfg, s, site, at, ok, now);
    GotoHistory(u, t, In(site, Next(cfg, s, t, ProcedureAt(site), at, ok, now)));
    SameHistory(cfg, u, Proceed(cfg, s, t, site, at, ok, now));
  }

  /** Leaving a procedure. */
  lemma LeaveEvent(cfg: Config, s: State, site: Site, outcome: Outcome)
    requires Coherent(cfg, s) && Inside(s.log) == Some(site) && Inner(cfg, s.log, ProcedureAt(site), Return(outcome))
    ensures var u := Happen(s, Leave(site, outcome));
            && Coherent(cfg, u) && u == s.(log := u.log)
            && Inside(u.log) == None && !PlugOff(u.log) && Offline(u.log) == Offline(s.log)
              && Stale(u.log) == Stale(s.log)
            && SoftFailed(u.log) == (SoftFailure(Leave(site, outcome)) || SoftFailed(s.log))
  {
    HappenKeepsCoherent(cfg, s, Leave(site, outcome));
    hide Coherent;
  }

  /** Entering a procedure. */
  lemma EnterEvent(cfg: Config, s: State, site: Site)
    requires Coherent(cfg, s) && Inside(s.log) == None && !PlugOff(s.log)
    requires site == StartUp ==> s.log == Empty
    ensures var u := Happen(s, Enter(site));
            && Coherent(cfg, u) && u == s.(log := u.log)
            && Inside(u.log) == Some(site) && Inner(cfg, u.log, ProcedureAt(site), First(ProcedureAt(site)))
            && Offline(u.log) == Offline(s.log) && Stale(u.log) == Stale(s.log)
              && SoftFailed(u.log) == SoftFailed(s.log)
  {
    HappenKeepsCoherent(cfg, s, Enter(site));
    hide Coherent;
  }

  lemma InnerIgnores(cfg: Config, l: Log, e: Event, p: Procedure, at: At)
    requires e.Tick? || e.Available? || e.Unavailable?
    ensures Inner(cfg, Then(l, e), p, at) == Inner(cfg, l, p, at)
  {
  }

  /** The health check's own events leave every procedure where it is. */
  lemma HealthEvent(cfg: Config, s: State, e: Event)
    requires Coherent(cfg, s) && (e.Tick? || e.Available? || e.Unavailable?)
    requires Allowed(cfg, s.log, e)
    ensures var u := Happen(s, e);
            && Coherent(cfg, u) && u == s.(log := u.log)
            && Inside(u.log) == Inside(s.log) && PlugOff(u.log) == PlugOff(s.log)
            && (forall p, at :: Inner(cfg, u.log, p, at) == Inner(cfg, s.log, p, at))
            && Offline(u.log) == (e.Unavailable? || (e.Tick? && Offline(s.log)))
            && Stale(u.log) == (if e.Tick? then e.stale else Stale(s.log))
            && SoftFailed(u.log) == (!e.Tick? && SoftFailed(s.log))
  {
    HappenKeepsCoherent(cfg, s, e);
    hide Coherent, Inner, Allowed;
    forall p, at
      ensures Inner(cfg, Then(s.log, e), p, at) == Inner(cfg, s.log, p, at)
    {
      InnerIgnores(cfg, s.log, e, p, at);
    }
  }

  /** What a thread may continue with after a procedure. */
  predicate Continues(cfg: Config, u: State, t: Thread, pc: Pc) {
    match pc
    case Idle => true
    case Restored => t.Health?
    case Joining => t.Main? && u.stopping
    case Want(next) => next != Shutdown && Owner(next) == t && next != StartUp && HealthReason(cfg, u, next)
    case _ => false
  }

  lemma ContinuesOk(cfg: Config, u: State, t: Thread, pc: Pc)
    requires PcOf(u, t) == pc && Continues(cfg, u, t, pc) && (pc.Want? && Starting(pc.site) ==> LoopsDormant(u))
    ensures ThreadOk(cfg, u, t)
  {
    hide HealthReason;
  }

  /** Whatever the outcome, the caller continues with something its thread may do. */
  lemma AfterFits(cfg: Config, s: State, u: State, site: Site, outcome: Outcome)
    requires HealthReason(cfg, s, site) && (site == Shutdown ==> u.stopping)
    requires Stale(u.log) == Stale(s.log)
    requires SoftFailed(u.log) == (SoftFailure(Leave(site, outcome)) || SoftFailed(s.log))
    ensures var pc := After(cfg, site, outcome);
            && Continues(cfg, u, Owner(site), pc)
            && (Launches(site, outcome) ==> pc == Idle)
            && (pc.Want? && Starting(pc.site) ==> Starting(site))
  {
    hide Stale, SoftFailed;
  }

  /** Procedures of different threads never overlap. */
  lemma OnlyOneInside(cfg: Config, s: State, t: Thread, other: Thread)
    requires Invariant(cfg, s) && PcOf(s, t).In? && t != other
    ensures !PcOf(s, other).In?
  {
    hide Inner, Inside, Coherent, HealthReason;
  }

  /** What a thread outside the procedures relies on. */
  lemma OutsideFrame(cfg: Config, s: State, u: State, t: Thread)
    requires ThreadOk(cfg, s, t) && PcOf(u, t) == PcOf(s, t) && !PcOf(s, t).In? && PcOf(s, t) != Dormant
    requires u.wedged == s.wedged && u.stopping == s.stopping && (s.main == Ended ==> u.connected == s.connected)
    requires Stale(u.log) == Stale(s.log) && (SoftFailed(s.log) ==> SoftFailed(u.log))
    requires LoopsDormant(s) ==> LoopsDormant(u)
    requires Over(s.health) && Over(s.periodic) ==> Over(u.health) && Over(u.periodic)
    ensures ThreadOk(cfg, u, t)
  {
    hide Inner, Inside, Stale, SoftFailed;
  }

  lemma QuietThread(cfg: Config, s: State, t: Thread)
    requires PcOf(s, t) == Idle || (PcOf(s, t) == Dormant && !t.Main?)
    ensures ThreadOk(cfg, s, t)
  {
  }

  /** What a thread inside a procedure knows. */
  lemma InsideFacts(cfg: Config, s: State, t: Thread)
    requires Invariant(cfg, s) && PcOf(s, t).In?
    ensures var In(site, at) := PcOf(s, t);
            && Coherent(cfg, s) && Owner(site) == t && HealthReason(cfg, s, site)
            && Inside(s.log) == Some(site) && Inner(cfg, s.log, ProcedureAt(site), at)
            && (Starting(site) ==> LoopsDormant(s)) && (site == Shutdown ==> s.stopping) && s.main != Dormant
  {
    hide Coherent, Inner, Inside, HealthReason;
  }

  /** Where the threads stand after a procedure. */
  lemma UnlockPcs(cfg: Config, s: State, t: Thread, site: Site, outcome: Outcome)
    requires Owner(site) == t
    ensures var u := Unlock(cfg, s, t, site, outcome);
            var g := Goto(s, t, After(cfg, site, outcome));
            && u.wedged == s.wedged && u.stopping == s.stopping && u.resetMu == None
              && u.log == Then(s.log, Leave(site, outcome))
            && u.heartbeat == s.heartbeat && u.connected == s.connected && u.lastPowerCycle == s.lastPowerCycle
            && u.main == g.main
            && (if Launches(site, outcome) then t.Main? && Quiet(u.health) && Quiet(u.periodic)
                else u.health == g.health && u.periodic == g.periodic)
  {
    hide After;
    LaunchIsMain(cfg, site, outcome);
  }

  predicate Quiet(pc: Pc) {
    pc == Idle || pc == Dormant
  }

  /** What the history says after a procedure. */
  lemma UnlockLog(cfg: Config, s: State, t: Thread, site: Site, outcome: Outcome)
    requires Invariant(cfg, s) && PcOf(s, t) == In(site, Return(outcome))
    ensures var u := Unlock(cfg, s, t, site, outcome);
            && Coherent(cfg, u)
            && Inside(u.log) == None && !PlugOff(u.log) && Offline(u.log) == Offline(s.log)
              && Stale(u.log) == Stale(s.log)
            && SoftFailed(u.log) == (SoftFailure(Leave(site, outcome)) || SoftFailed(s.log))
  {
    hide Coherent, Inner, Inside, PlugOff, Offline, Stale, SoftFailed, Invariant, Unlock, Goto;
    InsideFacts(cfg, s, t);
    UnlockPcs(cfg, s, t, site, outcome);
    LeaveEvent(cfg, s, site, outcome);
    SameHistory(cfg, Happen(s, Leave(site, outcome)), Unlock(cfg, s, t, site, outcome));
  }

  lemma LaunchIsMain(cfg: Config, site: Site, outcome: Outcome)
    ensures Launches(site, outcome) ==> Owner(site) == Main
  {
  }

  lemma UnlockOwn(cfg: Config, s: State, t: Thread, site: Site, outcome: Outcome)
    requires Invariant(cfg, s) && PcOf(s, t) == In(site, Return(outcome))
    ensures ThreadOk(cfg, Unlock(cfg, s, t, site, outcome), t)
  {
    hide Coherent, Inner, Inside, PlugOff, Offline, Stale, SoftFailed, After, Invariant, Unlock, Continues,
         HealthReason, ThreadOk;
    InsideFacts(cfg, s, t);
    UnlockPcs(cfg, s, t, site, outcome);
    UnlockLog(cfg, s, t, site, outcome);
    var u := Unlock(cfg, s, t, site, outcome);
    AfterFits(cfg, s, u, site, outcome);
    StartingIsMain(site);
    ContinuesOk(cfg, u, t, After(cfg, site, outcome));
  }

  lemma StartingIsMain(site: Site)
    ensures Starting(site) ==> Owner(site) == Main
  {
  }

  lemma UnlockOther(cfg: Config, s: State, t: Thread, site: Site, outcome: Outcome, other: Thread)
    requires Invariant(cfg, s) && PcOf(s, t) == In(site, Return(outcome)) && t != other
    ensures ThreadOk(cfg, Unlock(cfg, s, t, site, outcome), other) && !PcOf(Unlock(cfg, s, t, site, outcome), other).In?
  {
    OnlyOneInside(cfg, s, t, other);
    InsideFacts(cfg, s, t);
    OthersOk(cfg, s, other);
    hide Coherent, Inner, Inside, PlugOff, Offline, Stale, SoftFailed, After, HealthReason, ThreadOk, Unlock, Invariant;
    UnlockPcs(cfg, s, t, site, outcome);
    UnlockLog(cfg, s, t, site, outcome);
    var u := Unlock(cfg, s, t, site, outcome);
    if PcOf(u, other) == Dormant || Launches(site, outcome) {
      QuietThread(cfg, u, other);
    } else {
      OutsideFrame(cfg, s, u, other);
    }
  }

  lemma OthersOk(cfg: Config, s: State, t: Thread)
    requires Invariant(cfg, s)
    ensures ThreadOk(cfg, s, t)
  {
    hide ThreadOk, Coherent;
  }

  /** A thread may stand inside a procedure. */
  lemma InsideOk(cfg: Config, u: State, t: Thread, site: Site, at: At)
    requires PcOf(u, t) == In(site, at) && Owner(site) == t && HealthReason(cfg, u, site)
    requires Inside(u.log) == Some(site) && Inner(cfg, u.log, ProcedureAt(site), at)
    requires Starting(site) ==> LoopsDormant(u)
    requires site == Shutdown ==> u.stopping
    requires u.resetMu == if site == StartUp then None else Some(t)
    ensures ThreadOk(cfg, u, t)
  {
    hide Inner, Inside, HealthReason;
  }

  lemma MutexInside(cfg: Config, s: State, t: Thread)
    requires Invariant(cfg, s) && PcOf(s, t).In?
    ensures s.resetMu == (if PcOf(s, t).site == StartUp then None else Some(t)) && s.main != Ended
  {
    hide Inner, Inside, Coherent, HealthReason;
  }

  /** Where the threads stand after a step inside a procedure. */
  lemma ProceedPcs(cfg: Config, s: State, t: Thread, site: Site, at: At, ok: bool, now: int)
    requires PcOf(s, t) == In(site, at)
    ensures var u := Proceed(cfg, s, t, site, at, ok, now);
            && u == Goto(s, t, In(site, Next(cfg, s, t, ProcedureAt(site), at, ok, now)))
                    .(log := u.log, heartbeat := u.heartbeat, connected := u.connected,
                      lastPowerCycle := u.lastPowerCycle, lastContact := u.lastContact)
            && Offline(u.log) == Offline(s.log) && Inside(u.log) == Inside(s.log)
            && Stale(u.log) == Stale(s.log) && SoftFailed(u.log) == SoftFailed(s.log)
  {
    hide Called, Call, Next, Offline, Stale, SoftFailed, Inside, Goto, ProcedureAt;
    CalledFrame(cfg, s, site, at, ok, now);
    var pc := In(site, Next(cfg, s, t, ProcedureAt(site), at, ok, now));
    GotoFrame(s, Called(cfg, s, site, at, ok, now), t, pc);
    GotoHistory(Called(cfg, s, site, at, ok, now), t, pc);
  }

  lemma GotoFrame(s: State, u: State, t: Thread, pc: Pc)
    requires u == s.(log := u.log, heartbeat := u.heartbeat, connected := u.connected,
                     lastPowerCycle := u.lastPowerCycle, lastContact := u.lastContact)
    ensures Goto(u, t, pc) == Goto(s, t, pc).(log := u.log, heartbeat := u.heartbeat, connected := u.connected,
                                              lastPowerCycle := u.lastPowerCycle, lastContact := u.lastContact)
  {
  }

  lemma ProceedThread(cfg: Config, s: State, t: Thread, site: Site, at: At, ok: bool, now: int, other: Thread)
    requires Invariant(cfg, s) && PcOf(s, t) == In(site, at)
    ensures ThreadOk(cfg, Proceed(cfg, s, t, site, at, ok, now), other)
  {
    InsideFacts(cfg, s, t);
    MutexInside(cfg, s, t);
    OthersOk(cfg, s, other);
    hide Proceed, Next, Inner, Coherent, Inside, Offline, Stale, SoftFailed, Invariant, ThreadOk, ProcedureAt;
    InnerStep(cfg, s, t, site, at, ok, now);
    ProceedPcs(cfg, s, t, site, at, ok, now);
    StartingIsMain(site);
    var u := Proceed(cfg, s, t, site, at, ok, now);
    if other == t {
      InsideOk(cfg, u, t, site, Next(cfg, s, t, ProcedureAt(site), at, ok, now));
    } else {
      OnlyOneInside(cfg, s, t, other);
      if PcOf(s, other) == Dormant {
        QuietThread(cfg, u, other);
      } else {
        OutsideFrame(cfg, s, u, other);
      }
    }
  }

  lemma ProceedKeepsInvariant(cfg: Config, s: State, t: Thread, site: Site, at: At, ok: bool, now: int)
    requires Invariant(cfg, s) && PcOf(s, t) == In(site, at)
    ensures Invariant(cfg, Proceed(cfg, s, t, site, at, ok, now))
  {
    hide Proceed, Next, Inner, Coherent, Inside, Offline, Stale, SoftFailed, PlugOff, ThreadOk, HealthReason;
    InsideFacts(cfg, s, t);
    InnerStep(cfg, s, t, site, at, ok, now);
    ProceedPcs(cfg, s, t, site, at, ok, now);
    forall other
      ensures ThreadOk(cfg, Proceed(cfg, s, t, site, at, ok, now), other)
    {
      ProceedThread(cfg, s, t, site, at, ok, now, other);
    }
  }

  lemma UnlockKeepsInvariant(cfg: Config, s: State, t: Thread, site: Site, outcome: Outcome)
    requires Invariant(cfg, s) && PcOf(s, t) == In(site, Return(outcome))
    ensures Invariant(cfg, Unlock(cfg, s, t, site, outcome))
  {
    hide Coherent, Inner, Inside, PlugOff, Offline, Stale, SoftFailed, After, HealthReason, Unlock, ThreadOk;
    InsideFacts(cfg, s, t);
    UnlockPcs(cfg, s, t, site, outcome);
    UnlockLog(cfg, s, t, site, outcome);
    UnlockOwn(cfg, s, t, site, outcome);
    forall other | other != t
      ensures ThreadOk(cfg, Unlock(cfg, s, t, site, outcome), other)
    {
      UnlockOther(cfg, s, t, site, outcome, other);
    }
    AfterFits(cfg, s, Unlock(cfg, s, t, site, outcome), site, outcome);
  }

  lemma EnteredFrame(cfg: Config, s: State, t: Thread, site: Site)
    requires Coherent(cfg, s) && Inside(s.log) == None && !PlugOff(s.log) && site != StartUp
    ensures var u := Entered(s, t, site);
            && Coherent(cfg, u) && Inside(u.log) == Some(site)
            && Inner(cfg, u.log, ProcedureAt(site), First(ProcedureAt(site)))
            && Offline(u.log) == Offline(s.log) && Stale(u.log) == Stale(s.log)
              && SoftFailed(u.log) == SoftFailed(s.log)
            && u == Goto(s, t, In(site, First(ProcedureAt(site)))).(resetMu := Some(t), log := u.log)
  {
    hide Happen, Coherent, Inner, Inside, PlugOff, Offline, Stale, SoftFailed, ProcedureAt, First;
    var held := s.(resetMu := Some(t));
    SameHistory(cfg, s, held);
    EnterEvent(cfg, held, site);
    SameHistory(cfg, Happen(held, Enter(site)), Entered(s, t, site));
  }

  /** Nobody is inside while the mutex is free and main has started up. */
  lemma FreeMeansOutside(cfg: Config, s: State, t: Thread)
    requires Invariant(cfg, s) && s.resetMu == None && PcOf(s, t).Want?
    ensures Inside(s.log) == None && !PlugOff(s.log) && Coherent(cfg, s) && ThreadOk(cfg, s, t)
    ensures !s.main.In? && !s.health.In? && !s.periodic.In? && s.main != Dormant
  {
    hide Coherent, Inner, Inside, PlugOff, HealthReason;
  }

  lemma EnterOwn(cfg: Config, s: State, t: Thread, site: Site)
    requires Invariant(cfg, s) && PcOf(s, t) == Want(site) && s.resetMu == None
    ensures ThreadOk(cfg, Entered(s, t, site), t)
  {
    FreeMeansOutside(cfg, s, t);
    hide Happen, Coherent, Inner, Inside, PlugOff, Offline, Stale, SoftFailed, ProcedureAt, First, Entered, Invariant;
    EnteredFrame(cfg, s, t, site);
  }

  lemma EnterOther(cfg: Config, s: State, t: Thread, site: Site, other: Thread)
    requires Invariant(cfg, s) && PcOf(s, t) == Want(site) && s.resetMu == None && other != t
    ensures ThreadOk(cfg, Entered(s, t, site), other)
  {
    FreeMeansOutside(cfg, s, t);
    OthersOk(cfg, s, other);
    hide Happen, Coherent, Inner, Inside, PlugOff, Offline, Stale, SoftFailed, ProcedureAt, First, Entered, Invariant,
      ThreadOk, HealthReason;
    EnteredFrame(cfg, s, t, site);
    if PcOf(s, other) == Dormant {
      QuietThread(cfg, Entered(s, t, site), other);
    } else {
      OutsideFrame(cfg, s, Entered(s, t, site), other);
    }
  }

  lemma EnterKeepsInvariant(cfg: Config, s: State, t: Thread, site: Site)
    requires Invariant(cfg, s) && PcOf(s, t) == Want(site) && s.resetMu == None
    ensures Invariant(cfg, Entered(s, t, site))
  {
    hide Happen, Coherent, Inner, Inside, PlugOff, Offline, Stale, SoftFailed, ProcedureAt, First, Entered, ThreadOk;
    FreeMeansOutside(cfg, s, t);
    WantsOwn(cfg, s, t);
    EnteredFrame(cfg, s, t, site);
    EnterOwn(cfg, s, t, site);
    forall other | other != t
      ensures ThreadOk(cfg, Entered(s, t, site), other)
    {
      EnterOther(cfg, s, t, site, other);
    }
  }

  lemma WantsOwn(cfg: Config, s: State, t: Thread)
    requires Invariant(cfg, s) && PcOf(s, t).Want?
    ensures Owner(PcOf(s, t).site) == t && PcOf(s, t).site != StartUp
  {
    hide Coherent, HealthReason;
  }

  /** What the tick leaves of the health thread. */
  lemma TickFits(cfg: Config, s: State, now: int)
    requires Invariant(cfg, s) && s.health == Idle
    ensures var u := HealthTick(cfg, s, now);
            && ThreadOk(cfg, u, Health) && !Over(u.health) && !u.health.In?
            && Offline(u.log) == (if u.health.Announce? then u.health.available else u.wedged)
            && u == s.(log := Then(s.log, Tick(IsStale(cfg, s, now))), health := u.health, wedged := u.wedged)
  {
    hide Coherent, Inner, Inside, PlugOff, IsStale;
  }

  lemma TickOther(cfg: Config, s: State, now: int, t: Thread)
    requires Invariant(cfg, s) && s.health == Idle && !t.Health?
    ensures ThreadOk(cfg, HealthTick(cfg, s, now), t)
  {
    hide Happen, Coherent, Inner, Inside, PlugOff, Offline, Stale, SoftFailed, IsStale, HealthTick;
    TickFits(cfg, s, now);
    HealthEvent(cfg, s, Tick(IsStale(cfg, s, now)));
    HappenFrame(s, Tick(IsStale(cfg, s, now)));
  }

  lemma TickKeepsInvariant(cfg: Config, s: State, now: int)
    requires Invariant(cfg, s) && s.health == Idle
    ensures Invariant(cfg, HealthTick(cfg, s, now))
  {
    hide Happen, Coherent, Inner, Inside, PlugOff, Offline, Stale, SoftFailed, IsStale, HealthTick, ThreadOk;
    var e := Tick(IsStale(cfg, s, now));
    HealthEvent(cfg, s, e);
    TickFits(cfg, s, now);
    TickOther(cfg, s, now, Main);
    TickOther(cfg, s, now, Periodic);
    HappenFrame(s, e);
    SameHistory(cfg, Happen(s, e), HealthTick(cfg, s, now));
  }

  lemma AnnounceKeepsInvariant(cfg: Config, s: State, available: bool, ok: bool, now: int)
    requires Invariant(cfg, s) && s.health == Announce(available)
    ensures Invariant(cfg, Move(cfg, s, Health, ok, now))
  {
    hide Happen, Coherent, Inner, Inside, PlugOff, Offline, Stale, SoftFailed;
    var e := if available then Available else Unavailable;
    HealthEvent(cfg, s, e);
    SameHistory(cfg, Happen(s, e), Move(cfg, s, Health, ok, now));
  }

  lemma StartKeepsInvariant(cfg: Config, s: State, ok: bool, now: int)
    requires Invariant(cfg, s) && s.main == Dormant
    ensures Invariant(cfg, Move(cfg, s, Main, ok, now))
  {
    hide Happen, Coherent, Inner;
    var begun := s.(lastContact := now, main := In(StartUp, Connect(0)));
    SameHistory(cfg, s, begun);
    EnterEvent(cfg, begun, StartUp);
  }

  /** The end of Stop disconnects when every other thread is over. */
  lemma ClosingKeepsInvariant(cfg: Config, s: State, ok: bool, now: int)
    requires Invariant(cfg, s) && s.main == Closing
    ensures Invariant(cfg, Move(cfg, s, Main, ok, now))
  {
    HappenKeepsCoherent(cfg, s, Disconnect);
    SameHistory(cfg, Happen(s, Disconnect), Move(cfg, s, Main, ok, now));
    hide Coherent, Inner;
  }

  lemma StopKeepsInvariant(cfg: Config, s: State)
    requires Invariant(cfg, s) && s.main == Idle
    ensures Invariant(cfg, s.(stopping := true, main := Want(Shutdown)))
  {
    hide Coherent, Inner, Inside, PlugOff, Offline, Stale, SoftFailed;
    SameHistory(cfg, s, s.(stopping := true, main := Want(Shutdown)));
  }

  /** What a thread relies on while the history stays as it is. */
  lemma SilentFrame(cfg: Config, s: State, u: State, t: Thread)
    requires ThreadOk(cfg, s, t) && PcOf(u, t) == PcOf(s, t) && u.log == s.log && u.resetMu == s.resetMu
    requires u.stopping == s.stopping && u.connected == s.connected && (t.Health? ==> u.wedged == s.wedged)
    requires LoopsDormant(s) ==> LoopsDormant(u)
    requires Over(s.health) && Over(s.periodic) ==> Over(u.health) && Over(u.periodic)
    ensures ThreadOk(cfg, u, t)
  {
    hide Inner, Inside, Stale, SoftFailed;
  }

  lemma LoopOwn(cfg: Config, s: State, t: Thread, pc: Pc)
    requires !t.Main? && (pc == Ended || (t.Periodic? && (pc == Want(TimedCycle) || pc == Want(TimedReboot))))
    ensures ThreadOk(cfg, Goto(s, t, pc), t)
  {
    hide Stale, SoftFailed;
  }

  lemma LoopKeepsInvariant(cfg: Config, s: State, t: Thread, pc: Pc)
    requires Invariant(cfg, s) && PcOf(s, t) == Idle && !t.Main?
    requires pc == Ended || (t.Periodic? && (pc == Want(TimedCycle) || pc == Want(TimedReboot)))
    ensures Invariant(cfg, Goto(s, t, pc))
  {
    hide Coherent, Inside, PlugOff, Offline, ThreadOk;
    SameHistory(cfg, s, Goto(s, t, pc));
    forall other
      ensures ThreadOk(cfg, Goto(s, t, pc), other)
    {
      if other == t {
        LoopOwn(cfg, s, t, pc);
      } else {
        OthersOk(cfg, s, other);
        SilentFrame(cfg, s, Goto(s, t, pc), other);
      }
    }
  }

  lemma RestoredOwn(cfg: Config, s: State)
    ensures ThreadOk(cfg, s.(wedged := false, health := Announce(true)), Health)
    ensures ThreadOk(cfg, s.(health := Idle), Health)
  {
  }

  lemma RestoredKeepsInvariant(cfg: Config, s: State, ok: bool, now: int)
    requires Invariant(cfg, s) && s.health == Restored
    ensures Invariant(cfg, Move(cfg, s, Health, ok, now))
  {
    hide Coherent, Inside, PlugOff, Offline, ThreadOk;
    var u := Move(cfg, s, Health, ok, now);
    SameHistory(cfg, s, u);
    RestoredOwn(cfg, s);
    OthersOk(cfg, s, Main);
    OthersOk(cfg, s, Periodic);
    SilentFrame(cfg, s, u, Main);
    SilentFrame(cfg, s, u, Periodic);
  }

  lemma JoiningKeepsInvariant(cfg: Config, s: State, ok: bool, now: int)
    requires Invariant(cfg, s) && s.main == Joining
    ensures Invariant(cfg, Move(cfg, s, Main, ok, now))
  {
    hide Coherent, Inner, Inside, PlugOff, Offline, Stale, SoftFailed;
    SameHistory(cfg, s, Move(cfg, s, Main, ok, now));
  }

  /** Moves of an idle thread other than a health tick. */
  lemma SilentIdle(cfg: Config, s: State, t: Thread, ok: bool, now: int)
    requires Invariant(cfg, s) && PcOf(s, t) == Idle && !(t.Health? && ok)
    ensures Invariant(cfg, IdleStep(cfg, s, t, ok, now))
  {
    hide Invariant;
    match t
    case Main => StopKeepsInvariant(cfg, s);
    case Health => LoopKeepsInvariant(cfg, s, t, Ended);
    case Periodic =>
      LoopKeepsInvariant(cfg, s, t, Ended);
      LoopKeepsInvariant(cfg, s, t, Want(TimedCycle));
      LoopKeepsInvariant(cfg, s, t, Want(TimedReboot));
  }

  lemma IdleKeepsInvariant(cfg: Config, s: State, t: Thread, ok: bool, now: int)
    requires Invariant(cfg, s) && PcOf(s, t) == Idle
    ensures Invariant(cfg, IdleStep(cfg, s, t, ok, now))
  {
    hide Invariant, HealthTick;
    if t.Health? && ok {
      TickKeepsInvariant(cfg, s, now);
    } else {
      SilentIdle(cfg, s, t, ok, now);
    }
  }

  lemma MoveKeepsInvariant(cfg: Config, s: State, t: Thread, ok: bool, now: int)
    requires Invariant(cfg, s)
    ensures Invariant(cfg, Move(cfg, s, t, ok, now))
  {
    hide Invariant, Happen, Unlock, Proceed, HealthTick, IdleStep, Entered, AfterUnavailable, ProcedureAt;
    WhoseStep(cfg, s, t);
    match PcOf(s, t)
    case Dormant =>
      if t.Main? {
        StartKeepsInvariant(cfg, s, ok, now);
      }
    case Idle => IdleKeepsInvariant(cfg, s, t, ok, now);
    case Restored => RestoredKeepsInvariant(cfg, s, ok, now);
    case Joining => JoiningKeepsInvariant(cfg, s, ok, now);
    case Announce(available) => AnnounceKeepsInvariant(cfg, s, available, ok, now);
    case Want(site) =>
      if s.resetMu == None {
        EnterKeepsInvariant(cfg, s, t, site);
      }
    case In(site, at) =>
      if at.Return? {
        UnlockKeepsInvariant(cfg, s, t, site, at.outcome);
      } else {
        ProceedKeepsInvariant(cfg, s, t, site, at, ok, now);
      }
    case Closing => ClosingKeepsInvariant(cfg, s, ok, now);
    case Ended =>
  }

  lemma WhoseStep(cfg: Config, s: State, t: Thread)
    requires Invariant(cfg, s)
    ensures PcOf(s, t).Announce? || PcOf(s, t).Restored? ==> t.Health?
    ensures PcOf(s, t).Joining? || PcOf(s, t).Closing? ==> t.Main?
  {
    hide Coherent, Inner;
  }

  lemma LoseKeepsThread(cfg: Config, s: State, t: Thread)
    requires ThreadOk(cfg, s, t) && s.log != Empty
    ensures ThreadOk(cfg, Happen(s, Lost), t)
  {
    hide Inner;
    if PcOf(s, t).In? {
      InnerSurvivesLoss(cfg, s.log, ProcedureAt(PcOf(s, t).site), PcOf(s, t).at);
    }
  }

  lemma LoseKeepsInvariant(cfg: Config, s: State)
    requires Invariant(cfg, s) && s.connected
    ensures Invariant(cfg, Happen(s, Lost))
  {
    CoherentFields(cfg, s);
    HappenKeepsCoherent(cfg, s, Lost);
    hide Coherent, Inner, ThreadOk;
    LoseKeepsThread(cfg, s, Main);
    LoseKeepsThread(cfg, s, Health);
    LoseKeepsThread(cfg, s, Periodic);
  }

  lemma InnerSurvivesLoss(cfg: Config, l: Log, p: Procedure, at: At)
    requires Inner(cfg, l, p, at)
    ensures Inner(cfg, Then(l, Lost), p, at)
  {
  }

  /** Contact and cancellation touch nothing the invariant is about. */
  lemma AsideKeepsInvariant(cfg: Config, s: State, lastContact: int, cancelled: bool)
    requires Invariant(cfg, s)
    ensures Invariant(cfg, s.(lastContact := lastContact, cancelled := cancelled))
  {
    hide Coherent, ThreadOk;
    var u := s.(lastContact := lastContact, cancelled := cancelled);
    SameHistory(cfg, s, u);
    forall t
      ensures ThreadOk(cfg, u, t)
    {
      OthersOk(cfg, s, t);
      AsideKeepsThread(cfg, s, t, lastContact, cancelled);
    }
  }

  lemma AsideKeepsThread(cfg: Config, s: State, t: Thread, lastContact: int, cancelled: bool)
    requires ThreadOk(cfg, s, t)
    ensures ThreadOk(cfg, s.(lastContact := lastContact, cancelled := cancelled), t)
  {
    hide Inner, Inside, Stale, SoftFailed;
  }

  lemma StepKeepsInvariant(cfg: Config, s: State, a: Action)
    requires Invariant(cfg, s)
    ensures Invariant(cfg, Step(cfg, s, a))
  {
    hide Happen, Invariant, Move;
    match a
    case Act(t, ok, now) => MoveKeepsInvariant(cfg, s, t, ok, now);
    case Lose =>
      if s.connected {
        LoseKeepsInvariant(cfg, s);
      }
    case Contact(now) => AsideKeepsInvariant(cfg, s, now, s.cancelled);
    case Cancel => AsideKeepsInvariant(cfg, s, s.lastContact, true);
  }

  /** Every run of the supervisor keeps the invariant. */
  lemma {:induction false} RunSafety(cfg: Config, actions: seq<Action>)
    ensures Invariant(cfg, Execute(cfg, actions))
  {
    if actions != [] {
      RunSafety(cfg, actions[..|actions| - 1]);
      StepKeepsInvariant(cfg, Execute(cfg, actions[..|actions| - 1]), actions[|actions| - 1]);
    }
  }
}
