/** The methods of the application object (app/app.go), statement by statement, while the other threads
    and the environment do whatever they may between any two statements. Every execution of a method is
    proved to be a run of the supervisor: the ghost field actions is that run, and Valid() says that it
    leads to the process as it is. A method that waits for resetMu or for the loops may still be waiting
    when the observation ends. */
module App {
  import opened Bytes
  import opened Choreography
  import opened RunLog
  import opened Supervisor
  import Recovery

  // ---------- What belongs to one thread ----------

  /** The switches of the plug made by one thread. */
  function SwitchesOf(l: Log, t: Thread): seq<bool> {
    match l
    case Empty => []
    case Then(b, Publish(site, _, on, _)) => SwitchesOf(b, t) + if Owner(site) == t then [on] else []
    case Then(b, _) => SwitchesOf(b, t)
  }

  /** From s to u, thread t has made these switches; as its own it counts also the availability of the
      covers, if it is the health check, and the stop channel, if it is main. */
  predicate Did(s: State, u: State, t: Thread, switches: seq<bool>) {
    && SwitchesOf(u.log, t) == SwitchesOf(s.log, t) + switches
    && (t.Health? ==> u.wedged == s.wedged && Transitions(u.log) == Transitions(s.log))
    && (t.Main? ==> u.stopping == s.stopping)
  }

  /** Thread t has not moved from s to u; what it holds while inside a procedure is untouched. */
  predicate Kept(s: State, u: State, t: Thread) {
    && PcOf(u, t) == PcOf(s, t) && Did(s, u, t, []) && LastReturn(u.log, t) == LastReturn(s.log, t)
    && (s.cancelled ==> u.cancelled)
    && (PcOf(s, t).In? ==>
          u.heartbeat == s.heartbeat && u.lastPowerCycle == s.lastPowerCycle && u.resetMu == s.resetMu)
  }

  lemma DidTrans(s: State, u: State, v: State, t: Thread, a: seq<bool>, b: seq<bool>)
    requires Did(s, u, t, a) && Did(u, v, t, b)
    ensures Did(s, v, t, a + b)
  {
    hide SwitchesOf, Transitions;
    Assoc(SwitchesOf(s.log, t), a, b);
  }

  lemma JoinDid(s: State, u: State, v: State, t: Thread, b: seq<bool>)
    requires Did(s, u, t, []) && Did(u, v, t, b)
    ensures Did(s, v, t, b)
  {
    hide Did;
    DidTrans(s, u, v, t, [], b);
    NoSwitches(b);
  }

  lemma DidSwitches(s: State, u: State, t: Thread)
    requires Did(s, u, t, [])
    ensures SwitchesOf(u.log, t) == SwitchesOf(s.log, t)
  {
    hide SwitchesOf;
    NoSwitches(SwitchesOf(s.log, t));
  }

  lemma KeptSwitches(s: State, u: State, t: Thread)
    requires Kept(s, u, t)
    ensures SwitchesOf(u.log, t) == SwitchesOf(s.log, t)
  {
    DidSwitches(s, u, t);
  }

  lemma NoSwitches(a: seq<bool>)
    ensures [] + a == a + [] == a
  {
  }

  lemma KeptPc(s: State, u: State, t: Thread)
    requires Kept(s, u, t)
    ensures PcOf(u, t) == PcOf(s, t)
  {
  }

  lemma KeptNothing(s: State, t: Thread)
    ensures Kept(s, s, t)
  {
    NoSwitches(SwitchesOf(s.log, t));
  }

  lemma KeptTrans(s: State, u: State, v: State, t: Thread)
    requires Kept(s, u, t) && Kept(u, v, t)
    ensures Kept(s, v, t)
  {
    hide Did, LastReturn;
    DidTrans(s, u, v, t, [], []);
    NoSwitches([]);
  }

  // ---------- The other threads ----------

  /** One event of the history, as a thread it does not belong to sees it. */
  lemma ForeignEvent(l: Log, e: Event, t: Thread)
    requires e.Publish? ==> Owner(e.site) != t
    requires e.Leave? ==> Owner(e.site) != t
    requires e.Available? || e.Unavailable? ==> !t.Health?
    ensures var k := Then(l, e);
            && SwitchesOf(k, t) == SwitchesOf(l, t) + [] && LastReturn(k, t) == LastReturn(l, t)
            && (t.Health? ==> Transitions(k) == Transitions(l))
  {
    NoSwitches(SwitchesOf(l, t));
    hide Owner;
  }

  /** A step of another thread that records at most one foreign event keeps t where it is. */
  lemma ForeignStep(s: State, u: State, t: Thread, e: Option<Event>)
    requires u.log == if e.Some? then Then(s.log, e.value) else s.log
    requires e.Some? ==>
      && (e.value.Publish? || e.value.Leave? ==> Owner(e.value.site) != t)
      && (e.value.Available? || e.value.Unavailable? ==> !t.Health?)
    requires PcOf(u, t) == PcOf(s, t) && (s.cancelled ==> u.cancelled)
    requires (t.Health? ==> u.wedged == s.wedged) && (t.Main? ==> u.stopping == s.stopping)
    requires PcOf(s, t).In? ==>
      u.heartbeat == s.heartbeat && u.lastPowerCycle == s.lastPowerCycle && u.resetMu == s.resetMu
    ensures Kept(s, u, t)
  {
    hide SwitchesOf, LastReturn, Transitions, Owner;
    NoSwitches(SwitchesOf(s.log, t));
    if e.Some? {
      ForeignEvent(s.log, e.value, t);
    }
  }

  lemma OthersProceed(cfg: Config, s: State, t: Thread, x: Thread, site: Site, at: At, ok: bool, now: int)
    requires Invariant(cfg, s) && x != t && PcOf(s, x) == In(site, at) && !at.Return?
    ensures Kept(s, Proceed(cfg, s, x, site, at, ok, now), t)
  {
    hide Called, Next, Offline, Stale, SoftFailed, Inside, Kept, Invariant, Call;
    OnlyOneInside(cfg, s, x, t);
    InsideFacts(cfg, s, x);
    CalledFrame(cfg, s, site, at, ok, now);
    var call := Call(cfg, s, site, at, ok, now);
    if call.Some? {
      CallsOwnSite(cfg, s, site, at, ok, now);
    }
    ForeignStep(s, Proceed(cfg, s, x, site, at, ok, now), t, call);
  }

  lemma CallsOwnSite(cfg: Config, s: State, site: Site, at: At, ok: bool, now: int)
    requires Call(cfg, s, site, at, ok, now).Some?
    ensures var e := Call(cfg, s, site, at, ok, now).value;
            !e.Leave? && !e.Available? && !e.Unavailable? && (e.Publish? ==> e.site == site)
  {
  }

  lemma OthersUnlock(cfg: Config, s: State, t: Thread, x: Thread, site: Site, r: Outcome)
    requires Invariant(cfg, s) && x != t && PcOf(s, x) == In(site, Return(r)) && PcOf(s, t) != Dormant
    ensures Kept(s, Unlock(cfg, s, x, site, r), t)
  {
    OnlyOneInside(cfg, s, x, t);
    InsideFacts(cfg, s, x);
    hide After, Kept, Invariant, Unlock, Launches;
    UnlockPcs(cfg, s, x, site, r);
    UnlockFields(cfg, s, x, site, r);
    LaunchIsMain(cfg, site, r);
    LaunchStarts(site, r);
    ForeignStep(s, Unlock(cfg, s, x, site, r), t, Some(Leave(site, r)));
  }

  lemma LaunchStarts(site: Site, r: Outcome)
    ensures Launches(site, r) ==> Starting(site)
  {
  }

  lemma OthersEnter(cfg: Config, s: State, t: Thread, x: Thread, site: Site)
    requires Invariant(cfg, s) && x != t && PcOf(s, x) == Want(site) && s.resetMu == None
    ensures Kept(s, Entered(s, x, site), t)
  {
    FreeMeansOutside(cfg, s, x);
    hide Kept, Invariant, First, ProcedureAt;
    ForeignStep(s, Entered(s, x, site), t, Some(Enter(site)));
  }

  /** What a health tick changes. */
  lemma TickShape(cfg: Config, s: State, now: int)
    ensures var u := HealthTick(cfg, s, now);
            u == s.(log := Then(s.log, Tick(IsStale(cfg, s, now))), health := u.health, wedged := u.wedged)
  {
    hide IsStale;
  }

  lemma OthersTick(cfg: Config, s: State, t: Thread, now: int)
    requires s.health == Idle && t != Health
    ensures Kept(s, HealthTick(cfg, s, now), t)
  {
    hide Kept, IsStale, HealthTick;
    TickShape(cfg, s, now);
    ForeignStep(s, HealthTick(cfg, s, now), t, Some(Tick(IsStale(cfg, s, now))));
  }

  lemma OthersIdle(cfg: Config, s: State, t: Thread, x: Thread, ok: bool, now: int)
    requires PcOf(s, x) == Idle && x != t
    ensures Kept(s, IdleStep(cfg, s, x, ok, now), t)
  {
    hide Kept, HealthTick;
    if x.Health? && ok {
      OthersTick(cfg, s, t, now);
    } else {
      ForeignStep(s, IdleStep(cfg, s, x, ok, now), t, None);
    }
  }

  /** What an announcement changes. */
  lemma AnnounceShape(cfg: Config, s: State, available: bool, ok: bool, now: int)
    requires s.health == Announce(available)
    ensures Move(cfg, s, Health, ok, now)
            == s.(log := Then(s.log, if available then Available else Unavailable),
                  health := if available then Idle else AfterUnavailable(cfg))
  {
    hide AfterUnavailable;
  }

  lemma OthersAnnounce(cfg: Config, s: State, t: Thread, available: bool, ok: bool, now: int)
    requires s.health == Announce(available) && t != Health
    ensures Kept(s, Move(cfg, s, Health, ok, now), t)
  {
    hide Kept, Move;
    AnnounceShape(cfg, s, available, ok, now);
    ForeignStep(s, Move(cfg, s, Health, ok, now), t, Some(if available then Available else Unavailable));
  }

  lemma OthersRestored(cfg: Config, s: State, t: Thread, ok: bool, now: int)
    requires s.health == Restored && t != Health
    ensures Kept(s, Move(cfg, s, Health, ok, now), t)
  {
    hide Kept;
    ForeignStep(s, Move(cfg, s, Health, ok, now), t, None);
  }

  lemma OthersEnd(cfg: Config, s: State, t: Thread, ok: bool, now: int)
    requires (s.main == Joining || s.main == Closing) && t != Main && (s.main == Closing ==> !PcOf(s, t).In?)
    ensures Kept(s, Move(cfg, s, Main, ok, now), t)
  {
    hide Kept;
    ForeignStep(s, Move(cfg, s, Main, ok, now), t, if s.main == Closing then Some(RunLog.Disconnect) else None);
  }

  /** The moves of another thread outside the procedures. */
  lemma OthersOutside(cfg: Config, s: State, t: Thread, x: Thread, ok: bool, now: int)
    requires Invariant(cfg, s) && x != t && !PcOf(s, x).In? && !PcOf(s, x).Want? && PcOf(s, t) != Dormant
    ensures Kept(s, Move(cfg, s, x, ok, now), t)
  {
    WhoseStep(cfg, s, x);
    StartsAlone(cfg, s, x, t);
    hide Kept, Invariant, IdleStep, Happen;
    match PcOf(s, x)
    case Idle => OthersIdle(cfg, s, t, x, ok, now);
    case Announce(available) => OthersAnnounce(cfg, s, t, available, ok, now);
    case Restored => OthersRestored(cfg, s, t, ok, now);
    case Joining => OthersEnd(cfg, s, t, ok, now);
    case Closing => OthersEnd(cfg, s, t, ok, now);
    case _ => KeptNothing(s, t);
  }

  /** What the first and the last step of main rely on. */
  lemma StartsAlone(cfg: Config, s: State, x: Thread, t: Thread)
    requires Invariant(cfg, s) && x != t && PcOf(s, t) != Dormant
    ensures PcOf(s, x) == Dormant ==> !x.Main?
    ensures PcOf(s, x) == Closing ==> Over(PcOf(s, t))
  {
    hide Coherent, Inner, Inside, HealthReason;
  }

  /** Whatever another thread or the environment does, a started thread keeps its place and what is its
      own. */
  lemma OthersKeep(cfg: Config, s: State, t: Thread, a: Action)
    requires Invariant(cfg, s) && PcOf(s, t) != Dormant && !(a.Act? && a.t == t)
    ensures Kept(s, Step(cfg, s, a), t)
  {
    hide Invariant, Kept, Move, Happen;
    match a
    case Lose =>
      if s.connected {
        LossKeeps(s, t);
      } else {
        KeptNothing(s, t);
      }
    case Contact(now) => ForeignStep(s, s.(lastContact := now), t, None);
    case Cancel => ForeignStep(s, s.(cancelled := true), t, None);
    case Act(x, ok, now) => MoveKeeps(cfg, s, t, x, ok, now);
  }

  lemma OthersKeepRun(cfg: Config, actions: seq<Action>, t: Thread, a: Action)
    requires PcOf(Execute(cfg, actions), t) != Dormant && !(a.Act? && a.t == t)
    ensures var s := Execute(cfg, actions);
            Kept(s, Step(cfg, s, a), t) && PcOf(Step(cfg, s, a), t) == PcOf(s, t)
  {
    hide Execute, Step, Kept;
    RunSafety(cfg, actions);
    OthersKeep(cfg, Execute(cfg, actions), t, a);
    KeptPc(Execute(cfg, actions), Step(cfg, Execute(cfg, actions), a), t);
  }

  lemma LossKeeps(s: State, t: Thread)
    ensures Kept(s, Happen(s, Lost), t)
  {
    hide Kept;
    ForeignStep(s, Happen(s, Lost), t, Some(Lost));
  }

  lemma MoveKeeps(cfg: Config, s: State, t: Thread, x: Thread, ok: bool, now: int)
    requires Invariant(cfg, s) && PcOf(s, t) != Dormant && x != t
    ensures Kept(s, Move(cfg, s, x, ok, now), t)
  {
    if PcOf(s, x).In? || PcOf(s, x).Want? {
      InsideKeeps(cfg, s, t, x, ok, now);
    } else {
      OthersOutside(cfg, s, t, x, ok, now);
    }
  }

  lemma InsideKeeps(cfg: Config, s: State, t: Thread, x: Thread, ok: bool, now: int)
    requires Invariant(cfg, s) && PcOf(s, t) != Dormant && x != t && (PcOf(s, x).In? || PcOf(s, x).Want?)
    ensures Kept(s, Move(cfg, s, x, ok, now), t)
  {
    hide Invariant, Kept, Proceed, Unlock, Entered;
    match PcOf(s, x)
    case Want(site) =>
      if s.resetMu == None {
        OthersEnter(cfg, s, t, x, site);
      } else {
        KeptNothing(s, t);
      }
    case In(site, at) =>
      if at.Return? {
        OthersUnlock(cfg, s, t, x, site, at.outcome);
      } else {
        OthersProceed(cfg, s, t, x, site, at, ok, now);
      }
  }

  // ---------- Own steps ----------

  /** A visit of thread t to a procedure: from which state, and the switches of the plug since then. */
  datatype Visit = Visit(from: State, t: Thread, site: Site, switches: seq<bool>)

  /** The visit has come to this place. */
  predicate Visiting(v: Visit, u: State, at: At) {
    && PcOf(u, v.t) == In(v.site, at) && Owner(v.site) == v.t
    && Did(v.from, u, v.t, v.switches) && u.lastPowerCycle == v.from.lastPowerCycle
  }

  lemma VisitPc(v: Visit, u: State, at: At)
    requires Visiting(v, u, at)
    ensures PcOf(u, v.t) == In(v.site, at) && Owner(v.site) == v.t
  {
  }

  lemma VisitKept(v: Visit, s: State, u: State, at: At)
    requires Visiting(v, s, at) && Kept(s, u, v.t)
    ensures Visiting(v, u, at)
  {
    hide Did, LastReturn;
    DidTrans(v.from, s, u, v.t, v.switches, []);
    NoSwitches(v.switches);
  }

  /** The switches of the plug made by one call. */
  function Switched(at: At): seq<bool> {
    match at
    case Cut => [false]
    case Restore(_) => [true]
    case _ => []
  }

  function Extended(v: Visit, more: seq<bool>): Visit {
    if more == [] then v else v.(switches := v.switches + more)
  }

  lemma ExtendedSwitches(v: Visit, more: seq<bool>)
    ensures Extended(v, more) == v.(switches := v.switches + more)
  {
    NoSwitches(v.switches);
  }

  lemma CallUnstamped(cfg: Config, s: State, site: Site, at: At, ok: bool, now: int)
    requires !at.Check?
    ensures Called(cfg, s, site, at, ok, now).lastPowerCycle == s.lastPowerCycle
  {
    hide Happen, Call;
    var call := Call(cfg, s, site, at, ok, now);
    if call.Some? {
      OnlyCheckStamps(cfg, s, site, at, ok, now);
      HappenUnstamped(s, call.value);
    }
  }

  lemma OnlyCheckStamps(cfg: Config, s: State, site: Site, at: At, ok: bool, now: int)
    requires !at.Check? && Call(cfg, s, site, at, ok, now).Some?
    ensures !Call(cfg, s, site, at, ok, now).value.Stamp?
  {
  }

  lemma HappenUnstamped(s: State, e: Event)
    requires !e.Stamp?
    ensures Happen(s, e).lastPowerCycle == s.lastPowerCycle
  {
  }

  /** What a call adds to the history of its own thread. */
  lemma CallDid(cfg: Config, s: State, site: Site, at: At, ok: bool, now: int)
    ensures Did(s, Called(cfg, s, site, at, ok, now), Owner(site), Switched(at))
  {
    CalledFrame(cfg, s, site, at, ok, now);
    hide Called, Owner;
    NoSwitches(SwitchesOf(s.log, Owner(site)));
  }

  lemma GotoDid(s: State, u: State, t: Thread, pc: Pc, switches: seq<bool>)
    requires Did(s, u, t, switches)
    ensures Did(s, Goto(u, t, pc), t, switches) && PcOf(Goto(u, t, pc), t) == pc
    ensures Goto(u, t, pc).lastPowerCycle == u.lastPowerCycle && Goto(u, t, pc).cancelled == u.cancelled
  {
    hide SwitchesOf, Transitions;
  }

  lemma StepPasses(cfg: Config, v: Visit, s: State, at: At, ok: bool, now: int)
    requires Visiting(v, s, at) && !at.Return? && !at.Check?
    ensures var u := Move(cfg, s, v.t, ok, now);
            && u == Proceed(cfg, s, v.t, v.site, at, ok, now) && u.cancelled == s.cancelled
            && Visiting(Extended(v, Switched(at)), u, Next(cfg, s, v.t, ProcedureAt(v.site), at, ok, now))
  {
    hide Called, Next, Goto, Did, Switched, Extended, Move, ProcedureAt, Owner;
    MoveIn(cfg, s, v.t, v.site, at, ok, now);
    CalledFrame(cfg, s, v.site, at, ok, now);
    CallDid(cfg, s, v.site, at, ok, now);
    CallUnstamped(cfg, s, v.site, at, ok, now);
    DidTrans(v.from, s, Called(cfg, s, v.site, at, ok, now), v.t, v.switches, Switched(at));
    ExtendedSwitches(v, Switched(at));
    GotoDid(v.from, Called(cfg, s, v.site, at, ok, now), v.t,
      In(v.site, Next(cfg, s, v.t, ProcedureAt(v.site), at, ok, now)), v.switches + Switched(at));
  }

  predicate SameFields(s: State, u: State) {
    && u.heartbeat == s.heartbeat && u.connected == s.connected && u.lastPowerCycle == s.lastPowerCycle
    && u.lastContact == s.lastContact && u.wedged == s.wedged && u.stopping == s.stopping && u.cancelled == s.cancelled
    && u.resetMu == s.resetMu
  }

  lemma GotoFields(s: State, t: Thread, pc: Pc)
    ensures SameFields(s, Goto(s, t, pc))
  {
  }

  /** Calls that change no field. */
  lemma QuietCall(cfg: Config, s: State, t: Thread, site: Site, at: At, ok: bool, now: int)
    requires at.Ask? || at.Cut? || at.Restore? || at.Dwell? || at.Wait? || at.Login? || at.Register?
    ensures SameFields(s, Proceed(cfg, s, t, site, at, ok, now))
  {
    hide Next, Goto;
    GotoFields(Called(cfg, s, site, at, ok, now), t, In(site, Next(cfg, s, t, ProcedureAt(site), at, ok, now)));
  }

  /** A power cycle that is turned away. */
  lemma TurnedAway(cfg: Config, v: Visit, s: State, ok: bool, now: int)
    requires Visiting(v, s, Check) && (Refusing(cfg) || Debouncing(s, now))
    ensures var r := if Refusing(cfg) then Refused else Debounced;
            var u := Move(cfg, s, v.t, ok, now);
            Visiting(v, u, Return(r)) && SameFields(s, u)
  {
    hide Refusing, Debouncing, Did, Goto;
    var r := if Refusing(cfg) then Refused else Debounced;
    GotoDid(v.from, s, v.t, In(v.site, Return(r)), v.switches);
    GotoFields(s, v.t, In(v.site, Return(r)));
  }

  /** A power cycle that is stamped. */
  lemma StampVisits(cfg: Config, v: Visit, s: State, ok: bool, now: int)
    requires Visiting(v, s, Check) && !Refusing(cfg) && !Debouncing(s, now)
    ensures var u := Move(cfg, s, v.t, ok, now);
            && Visiting(v.(from := v.from.(lastPowerCycle := now)), u, Halt)
            && SameFields(s.(lastPowerCycle := now), u)
  {
    StampCalled(cfg, s, v.site, ok, now);
    StampedVisit(v, s, now);
    hide Refusing, Debouncing, Did, Goto, Called, Happen;
    var w := v.(from := v.from.(lastPowerCycle := now));
    GotoDid(w.from, Happen(s, Stamp(now)), v.t, In(v.site, Halt), v.switches);
    GotoFields(Happen(s, Stamp(now)), v.t, In(v.site, Halt));
  }

  lemma StampCalled(cfg: Config, s: State, site: Site, ok: bool, now: int)
    requires !Refusing(cfg) && !Debouncing(s, now)
    ensures Called(cfg, s, site, Check, ok, now) == Happen(s, Stamp(now))
    ensures SameFields(s.(lastPowerCycle := now), Happen(s, Stamp(now)))
  {
  }

  lemma StampedVisit(v: Visit, s: State, now: int)
    requires Visiting(v, s, Check)
    ensures Did(v.from.(lastPowerCycle := now), Happen(s, Stamp(now)), v.t, v.switches)
  {
  }

  lemma EnterVisits(cfg: Config, s: State, t: Thread, site: Site)
    requires PcOf(s, t) == Want(site) && s.resetMu == None && Owner(site) == t
    ensures Visiting(Visit(s.(resetMu := Some(t)), t, site, []), Move(cfg, s, t, true, 0), First(ProcedureAt(site)))
    ensures SameFields(s.(resetMu := Some(t)), Move(cfg, s, t, true, 0))
    ensures Did(s, s.(resetMu := Some(t)), t, [])
  {
    NoSwitches(SwitchesOf(s.log, t));
    hide First, ProcedureAt, Owner;
  }

  /** The visit is over: the thread continues as its caller does. */
  predicate Finished(cfg: Config, v: Visit, u: State, r: Outcome) {
    && PcOf(u, v.t) == After(cfg, v.site, r) && u.resetMu == None && Owner(v.site) == v.t
    && Did(v.from, u, v.t, v.switches) && LastReturn(u.log, v.t) == Some((v.site, r))
    && u.lastPowerCycle == v.from.lastPowerCycle
    && (Launches(v.site, r) ==> Launched(cfg, u))
  }

  /** The loops that are configured have been started. */
  predicate Launched(cfg: Config, u: State) {
    && u.health == (if cfg.healthInterval > 0 then Idle else Dormant)
    && u.periodic == (if cfg.periodicLoop then Idle else Dormant)
  }

  lemma UnlockLaunches(cfg: Config, s: State, t: Thread, site: Site, r: Outcome)
    requires Launches(site, r)
    ensures Launched(cfg, Unlock(cfg, s, t, site, r))
  {
  }

  lemma UnlockFields(cfg: Config, s: State, t: Thread, site: Site, r: Outcome)
    ensures SameFields(s.(resetMu := None), Unlock(cfg, s, t, site, r))
  {
    hide After, Happen, Launches;
    HappenFrame(s.(resetMu := None), Leave(site, r));
    LeaveFields(s.(resetMu := None), site, r);
    GotoFields(Happen(s.(resetMu := None), Leave(site, r)), t, After(cfg, site, r));
  }

  lemma LeaveFields(s: State, site: Site, r: Outcome)
    ensures SameFields(s, Happen(s, Leave(site, r)))
  {
  }

  lemma LeaveEventOf(l: Log, site: Site, r: Outcome)
    ensures var k := Then(l, Leave(site, r));
            SwitchesOf(k, Owner(site)) == SwitchesOf(l, Owner(site)) && Transitions(k) == Transitions(l)
            && LastReturn(k, Owner(site)) == Some((site, r))
  {
  }

  lemma LeaveVisits(cfg: Config, v: Visit, s: State, r: Outcome)
    requires Visiting(v, s, Return(r))
    ensures var u := Move(cfg, s, v.t, true, 0);
            && u == Unlock(cfg, s, v.t, v.site, r) && Finished(cfg, v, u, r)
            && SameFields(s.(resetMu := None), u) && u.log == Then(s.log, Leave(v.site, r))
  {
    hide After, SwitchesOf, LastReturn, Transitions, Launches, Launched, Owner, Unlock, SameFields;
    UnlockPcs(cfg, s, v.t, v.site, r);
    UnlockFields(cfg, s, v.t, v.site, r);
    if Launches(v.site, r) {
      UnlockLaunches(cfg, s, v.t, v.site, r);
    }
    LeaveEventOf(s.log, v.site, r);
  }

  /** What a result says of the fields at the moment of return. */
  predicate Meaning(u: State, r: Outcome) {
    && (r == Recovered ==> u.heartbeat && Progress(u.log) == 5)
    && (r == Exhausted ==> !u.heartbeat && !u.connected && Attempts(u.log) == SLOTS)
    && (r in [Cancelled, Unreachable, RegisterFailed, Halted] ==> !u.heartbeat)
  }

  /** Every return of every run means what it says. */
  lemma ReturnMeans(cfg: Config, actions: seq<Action>, t: Thread, site: Site, r: Outcome)
    requires PcOf(Execute(cfg, actions), t) == In(site, Return(r))
    ensures Owner(site) == t
    ensures Meaning(Execute(cfg, actions), r)
  {
    RunSafety(cfg, actions);
    hide Execute;
    InsideFacts(cfg, Execute(cfg, actions), t);
  }

  lemma MeaningKept(s: State, u: State, site: Site, r: Outcome)
    requires Meaning(s, r) && u.log == Then(s.log, Leave(site, r)) && SameFields(s.(resetMu := None), u)
    ensures Meaning(u, r)
  {
  }

  lemma WantsOwnRun(cfg: Config, actions: seq<Action>, t: Thread)
    requires PcOf(Execute(cfg, actions), t).Want?
    ensures var s := Execute(cfg, actions);
            Owner(PcOf(s, t).site) == t && (Starting(PcOf(s, t).site) ==> s.resetMu == None && LoopsDormant(s))
  {
    hide Execute;
    RunSafety(cfg, actions);
    var s := Execute(cfg, actions);
    WantsOwn(cfg, s, t);
    if Starting(PcOf(s, t).site) {
      StartIsFree(cfg, s, t);
    }
  }

  /** What the health check has done from s to u: switches of the plug and availability transitions. */
  predicate Worked(s: State, u: State, switches: seq<bool>, marks: seq<bool>) {
    && SwitchesOf(u.log, Health) == SwitchesOf(s.log, Health) + switches
    && Transitions(u.log) == Transitions(s.log) + marks
  }

  lemma WorkedTrans(s: State, u: State, v: State, a: seq<bool>, b: seq<bool>, c: seq<bool>, d: seq<bool>)
    requires Worked(s, u, a, b) && Worked(u, v, c, d)
    ensures Worked(s, v, a + c, b + d)
  {
    hide SwitchesOf, Transitions;
    Assoc(SwitchesOf(s.log, Health), a, c);
    Assoc(Transitions(s.log), b, d);
  }

  lemma DidWork(s: State, u: State, switches: seq<bool>)
    requires Did(s, u, Health, switches)
    ensures Worked(s, u, switches, []) && u.wedged == s.wedged
  {
    NoSwitches(Transitions(s.log));
  }

  lemma KeptWork(s: State, u: State)
    requires Kept(s, u, Health)
    ensures Worked(s, u, [], []) && u.wedged == s.wedged && LastReturn(u.log, Health) == LastReturn(s.log, Health)
  {
    DidWork(s, u, []);
  }

  lemma AnnounceMove(cfg: Config, s: State, available: bool)
    requires s.health == Announce(available)
    ensures var u := Move(cfg, s, Health, true, 0);
            && Worked(s, u, [], [available]) && SameFields(s, u)
              && LastReturn(u.log, Health) == LastReturn(s.log, Health)
            && u.health == if available then Idle else AfterUnavailable(cfg)
  {
    hide Move;
    AnnounceShape(cfg, s, available, true, 0);
    NoSwitches(SwitchesOf(s.log, Health));
  }

  lemma TickMove(cfg: Config, s: State, now: int)
    requires s.health == Idle
    ensures var u := Move(cfg, s, Health, true, now);
            && Worked(s, u, [], []) && SameFields(s.(wedged := IsStale(cfg, s, now)), u)
            && LastReturn(u.log, Health) == LastReturn(s.log, Health)
            && u.health == (if s.wedged != IsStale(cfg, s, now) then Announce(s.wedged)
                            else if s.wedged then AfterUnavailable(cfg) else Idle)
  {
    hide IsStale;
    NoSwitches(SwitchesOf(s.log, Health));
    NoSwitches(Transitions(s.log));
  }

  lemma RestoredMove(cfg: Config, s: State)
    requires s.health == Restored
    ensures var u := Move(cfg, s, Health, true, 0);
            && Worked(s, u, [], []) && SameFields(s.(wedged := false), u)
            && LastReturn(u.log, Health) == LastReturn(s.log, Health)
            && u.health == if s.wedged then Announce(true) else Idle
  {
    NoSwitches(SwitchesOf(s.log, Health));
    NoSwitches(Transitions(s.log));
  }

  /** How a periodic restart may end: with a reboot, or, if power cycles are configured for it, with one
      that has recovered the bridge or was debounced. */
  predicate PeriodicEnding(cfg: Config, last: Option<(Site, Outcome)>, switches: seq<bool>) {
    last.Some? &&
    var (site, outcome) := last.value;
    || site == TimedReboot
    || (site == TimedCycle && cfg.periodicPowerCycle && cfg.topic != ""
        && ((outcome == Recovered && switches == [false, true]) || (outcome == Debounced && switches == [])))
  }

  /** How Start may end: with a bring-up whose covers could not be registered, or that found no gateway
      and has no plug to try; with the power cycle if it has one; or with the reboot on startup. */
  predicate StartEnding(cfg: Config, last: Option<(Site, Outcome)>, ok: bool) {
    || (last == Some((StartUp, Unreachable)) && cfg.topic == "" && !ok)
    || (last == Some((StartUp, RegisterFailed)) && !ok)
    || (LastWas(last, StartCycle, ok) && cfg.topic != "")
    || LastWas(last, StartReboot, ok)
  }

  /** The last procedure of a thread was this one, and has recovered the bridge or not. */
  predicate LastWas(last: Option<(Site, Outcome)>, site: Site, ok: bool) {
    last.Some? && last.value.0 == site && (last.value.1 == Recovered <==> ok)
  }

  lemma PeriodicMove(cfg: Config, s: State)
    requires s.periodic == Idle
    ensures var u := Move(cfg, s, Periodic, true, 0);
            && u == s.(periodic := Want(if cfg.periodicPowerCycle && cfg.topic != "" then TimedCycle else TimedReboot))
            && Did(s, u, Periodic, [])
  {
    NoSwitches(SwitchesOf(s.log, Periodic));
  }

  lemma StartMove(cfg: Config, s: State, now: int)
    requires s.main == Dormant
    ensures var u := Move(cfg, s, Main, true, now);
            && u == s.(lastContact := now, main := In(StartUp, Connect(0)), log := Then(s.log, Enter(StartUp)))
            && Did(s, u, Main, []) && Visiting(Visit(u, Main, StartUp, []), u, Connect(0))
  {
    NoSwitches(SwitchesOf(s.log, Main));
  }

  lemma StopMove(cfg: Config, s: State)
    requires s.main == Idle
    ensures Move(cfg, s, Main, true, 0) == s.(stopping := true, main := Want(Shutdown))
  {
  }

  lemma CloseMoves(cfg: Config, s: State)
    requires s.main == Joining && Over(s.health) && Over(s.periodic)
    ensures var u := Move(cfg, s, Main, true, 0);
            && u == s.(main := Closing)
            && Move(cfg, u, Main, true, 0)
               == s.(main := Ended, connected := false, log := Then(s.log, RunLog.Disconnect))
            && SwitchesOf(Then(s.log, RunLog.Disconnect), Main) == SwitchesOf(s.log, Main)
  {
  }

  /** Before the loops are launched they are dormant. */
  lemma StartAlone(cfg: Config, actions: seq<Action>)
    ensures var s := Execute(cfg, actions);
            s.main.In? && Starting(s.main.site) ==> LoopsDormant(s)
  {
    RunSafety(cfg, actions);
    hide Execute, Coherent, Inner, Inside, HealthReason;
  }

  lemma StaysAlone(cfg: Config, s: State, site: Site, r: Outcome)
    requires !Launches(site, r)
    ensures LoopsDormant(s) ==> LoopsDormant(Unlock(cfg, s, Main, site, r))
  {
    hide After;
  }

  /** What a caller learns from a finished visit. */
  lemma FinishedReturns(cfg: Config, s: State, v: Visit, u: State, r: Outcome)
    requires Finished(cfg, v, u, r) && Did(s, v.from, v.t, [])
    ensures && Did(s, u, v.t, v.switches) && PcOf(u, v.t) == After(cfg, v.site, r) && u.resetMu == None
            && LastReturn(u.log, v.t) == Some((v.site, r))
            && (Launches(v.site, r) ==> Launched(cfg, u))
  {
    hide Did, LastReturn, After, Launched, Launches;
    DidTrans(s, v.from, u, v.t, [], v.switches);
    NoSwitches(v.switches);
  }

  lemma FinishedStamp(cfg: Config, v: Visit, u: State, r: Outcome)
    requires Finished(cfg, v, u, r)
    ensures u.lastPowerCycle == v.from.lastPowerCycle
  {
  }

  lemma LastOfFinished(cfg: Config, v: Visit, u: State, r: Outcome)
    requires Finished(cfg, v, u, r) && LastScripted(cfg, u.log, v.t)
    ensures ByTheScript(cfg, v.site, r, LastVisit(u.log, v.t))
  {
    hide ByTheScript;
  }

  /** A stamp in between does not change what the thread has done. */
  lemma SameVisitStart(s: State, from: State, v: Visit, now: int)
    requires Did(s, from, v.t, []) && (v.from == from || v.from == from.(lastPowerCycle := now))
    ensures Did(s, v.from, v.t, [])
  {
  }

  lemma StartIsFree(cfg: Config, s: State, t: Thread)
    requires Invariant(cfg, s) && PcOf(s, t).Want? && Starting(PcOf(s, t).site)
    ensures s.resetMu == None && LoopsDormant(s)
  {
    hide Coherent, Inner, Inside, HealthReason;
  }

  lemma KeptDid(s: State, u: State, t: Thread)
    requires Kept(s, u, t)
    ensures Did(s, u, t, [])
  {
  }

  lemma HaltedIsStill(u: State)
    requires Meaning(u, Halted)
    ensures !u.heartbeat
  {
  }

  lemma RecoveredBeats(u: State)
    requires Meaning(u, Recovered)
    ensures u.heartbeat
  {
  }

  /** The health-check interval in nanoseconds. */
  function Interval(cfg: Config): int {
    cfg.healthInterval * 1_000_000_000
  }

  /** Stale means that two whole intervals have passed since the last contact. */
  lemma StaleIs(cfg: Config, s: State, now: int)
    ensures IsStale(cfg, s, now) == TooOld(cfg, s.lastContact, now)
    ensures IsStale(cfg, s, now) <==> s.lastContact + Interval(cfg) + Interval(cfg) < now
  {
  }

  class App {
    const cfg: Config
    var heartbeat: bool          // a heartbeat is set, and runs
    var connected: bool
    var lastPowerCycle: int
    var lastContact: int
    var wedged: bool
    var stopping: bool
    var cancelled: bool          // the context of Start is done
    var resetMu: Option<Thread>
    var m: State                 // the process as a whole, with the place of every thread and the history
    ghost var actions: seq<Action>

    ghost predicate Valid()
      reads this
    {
      && m == Execute(cfg, actions)
      && heartbeat == m.heartbeat && connected == m.connected
      && lastPowerCycle == m.lastPowerCycle && lastContact == m.lastContact
      && wedged == m.wedged && stopping == m.stopping && cancelled == m.cancelled && resetMu == m.resetMu
    }

    constructor (cfg: Config)
      ensures Valid() && this.cfg == cfg && m == Initial
    {
      this.cfg := cfg;
      heartbeat, connected, lastPowerCycle, lastContact := false, false, 0, 0;
      wedged, stopping, cancelled, resetMu := false, false, false, None;
      m, actions := Initial, [];
    }

    /** The process takes a step; the fields are the business of whoever takes it. */
    method Took(a: Action)
      requires m == Execute(cfg, actions)
      modifies `m, `actions
      ensures m == Execute(cfg, actions) == Step(cfg, old(m), a)
    {
      m := Step(cfg, m, a);
      actions := actions + [a];
    }

    // ---------- The other threads and the environment ----------

    /** Anything happens, except that thread t moves. */
    method Others(t: Thread)
      requires Valid() && PcOf(m, t) != Dormant
      modifies this
      ensures Valid() && Kept(old(m), m, t) && PcOf(m, t) == PcOf(old(m), t)
    {
      hide Execute, Kept, Step;
      KeptNothing(m, t);
      var n: int := *;
      while 0 < n
        invariant Valid() && Kept(old(m), m, t) && PcOf(m, t) == PcOf(old(m), t)
      {
        n := n - 1;
        var a: Action := *;
        if !a.Act? || a.t != t {
          ghost var u := m;
          Suffer(t, a);
          KeptTrans(old(m), u, m, t);
        }
      }
    }

    method Suffer(t: Thread, a: Action)
      requires Valid() && PcOf(m, t) != Dormant && !(a.Act? && a.t == t)
      modifies this
      ensures Valid() && Kept(old(m), m, t) && PcOf(m, t) == PcOf(old(m), t)
    {
      hide Execute, Kept, Step;
      OthersKeepRun(cfg, actions, t, a);
      Took(a);
      Sync();
    }

    /** The fields after a step somebody else has taken. */
    method Sync()
      requires m == Execute(cfg, actions)
      modifies `heartbeat, `connected, `lastPowerCycle, `lastContact, `wedged, `stopping, `cancelled, `resetMu
      ensures Valid()
    {
      hide Execute;
      heartbeat, connected, lastPowerCycle, lastContact := m.heartbeat, m.connected, m.lastPowerCycle, m.lastContact;
      wedged, stopping, cancelled, resetMu := m.wedged, m.stopping, m.cancelled, m.resetMu;
    }

    /** Time passes inside a procedure. */
    method Elapse(t: Thread, ghost v: Visit, ghost at: At)
      requires Valid() && Visiting(v, m, at) && v.t == t
      modifies this
      ensures Valid() && Visiting(v, m, at)
    {
      hide Execute, Visiting, Kept;
      VisitPc(v, m, at);
      ghost var u := m;
      Others(t);
      VisitKept(v, u, m, at);
    }

    /** One step inside a procedure, in the process as a whole. */
    method Stepped(t: Thread, ghost v: Visit, ghost at: At, ok: bool, now: int)
      requires m == Execute(cfg, actions) && Visiting(v, m, at) && v.t == t && !at.Return? && !at.Check?
      modifies `m, `actions
      ensures m == Execute(cfg, actions) == Proceed(cfg, old(m), v.t, v.site, at, ok, now)
      ensures Visiting(Extended(v, Switched(at)), m, Next(cfg, old(m), v.t, ProcedureAt(v.site), at, ok, now))
      ensures m.cancelled == old(m).cancelled
    {
      hide Execute, Proceed, Visiting, Next;
      StepPasses(cfg, v, m, at, ok, now);
      Took(Act(t, ok, now));
    }

    // ---------- The seams, inside a procedure ----------

    method StopHeartbeatFn(t: Thread, ghost v: Visit)
      requires Valid() && Visiting(v, m, Halt) && v.t == t
      modifies this
      ensures Valid() && Visiting(v, m, AfterHalt(ProcedureAt(v.site)))
    {
      hide Execute, Visiting;
      if heartbeat {
        heartbeat := false;
      }
      Stepped(t, v, Halt, true, 0);
      Elapse(t, v, AfterHalt(ProcedureAt(v.site)));
    }

    method StartHeartbeatFn(t: Thread, ghost v: Visit)
      requires Valid() && Visiting(v, m, Revive) && v.t == t
      modifies this
      ensures Valid() && Visiting(v, m, Return(Recovered))
    {
      hide Execute, Visiting;
      heartbeat := true;
      Stepped(t, v, Revive, true, 0);
      Elapse(t, v, Return(Recovered));
    }

    method Disconnect(t: Thread, ghost v: Visit, ghost at: At)
      requires Valid() && Visiting(v, m, at) && v.t == t && (at.HangUp? || at.Cleanup?)
      modifies this
      ensures Valid() && Visiting(v, m, if at.HangUp? then AfterHangUp(ProcedureAt(v.site)) else Wait(at.slot + 1))
    {
      hide Execute, Visiting;
      connected := false;
      Stepped(t, v, at, true, 0);
      Elapse(t, v, if at.HangUp? then AfterHangUp(ProcedureAt(v.site)) else Wait(at.slot + 1));
    }

    /** The request may fail; its outcome is ignored. */
    method RebootFn(t: Thread, ghost v: Visit)
      requires Valid() && Visiting(v, m, Ask) && v.t == t
      modifies this
      ensures Valid() && Visiting(v, m, HangUp)
    {
      hide Execute, Proceed, Visiting;
      QuietCall(cfg, m, v.t, v.site, Ask, true, 0);
      Stepped(t, v, Ask, true, 0);
      Elapse(t, v, HangUp);
    }

    method PublishFn(t: Thread, ghost v: Visit, on: bool, ghost aborted: bool) returns (ghost w: Visit)
      requires Valid() && Visiting(v, m, if on then Restore(aborted) else Cut) && v.t == t
      modifies this
      ensures Valid()
      ensures w == v.(switches := v.switches + [on])
      ensures Visiting(w, m, if !on then HangUp else if aborted then Return(Cancelled) else Wait(0))
    {
      hide Execute, Proceed, Visiting;
      w := v.(switches := v.switches + [on]);
      QuietCall(cfg, m, v.t, v.site, if on then Restore(aborted) else Cut, true, 0);
      Stepped(t, v, if on then Restore(aborted) else Cut, true, 0);
      Elapse(t, w, if !on then HangUp else if aborted then Return(Cancelled) else Wait(0));
    }

    /** The select on a timer and the context of thread t: true if the timer fired. */
    method SleepOrDone(t: Thread, ghost v: Visit, ghost at: At) returns (fired: bool)
      requires Valid() && Visiting(v, m, at) && v.t == t && (at.Dwell? || (at.Wait? && at.slot < SLOTS))
      modifies this
      ensures Valid()
      ensures Visiting(v, m, if at.Dwell? then Restore(!fired) else
                             if fired then Connect(at.slot) else Return(Cancelled))
    {
      hide Execute, Proceed, Visiting;
      fired := *;
      if !(cancelled && t.Main?) {
        fired := true;
      }
      QuietCall(cfg, m, v.t, v.site, at, fired, 0);
      Stepped(t, v, at, fired, 0);
      Elapse(t, v, if at.Dwell? then Restore(!fired) else if fired then Connect(at.slot) else Return(Cancelled));
    }

    method ConnectFn(t: Thread, ghost v: Visit, ghost slot: nat) returns (ok: bool)
      requires Valid() && Visiting(v, m, Connect(slot)) && v.t == t
      modifies this
      ensures Valid() && Visiting(v, m, if ok then Login(slot) else AfterFailure(ProcedureAt(v.site), slot))
    {
      hide Execute, Visiting, AfterFailure;
      ok := *;
      if ok {
        connected := true;
      }
      Stepped(t, v, Connect(slot), ok, 0);
      Elapse(t, v, if ok then Login(slot) else AfterFailure(ProcedureAt(v.site), slot));
    }

    method PasswordEnter(t: Thread, ghost v: Visit, ghost slot: nat) returns (ok: bool)
      requires Valid() && Visiting(v, m, Login(slot)) && v.t == t
      modifies this
      ensures Valid() && Visiting(v, m, if ok then Load(slot) else AfterFailure(ProcedureAt(v.site), slot))
    {
      hide Execute, Proceed, Visiting, AfterFailure;
      ok := *;
      QuietCall(cfg, m, v.t, v.site, Login(slot), ok, 0);
      Stepped(t, v, Login(slot), ok, 0);
      Elapse(t, v, if ok then Load(slot) else AfterFailure(ProcedureAt(v.site), slot));
    }

    /** LoadNodes, and the contact stamp that follows a success. */
    method LoadNodes(t: Thread, ghost v: Visit, ghost slot: nat) returns (ok: bool)
      requires Valid() && Visiting(v, m, Load(slot)) && v.t == t
      modifies this
      ensures Valid() && Visiting(v, m, if ok then Register else AfterFailure(ProcedureAt(v.site), slot))
    {
      hide Execute, Visiting, AfterFailure;
      ok := *;
      var now: int := *;
      if ok {
        lastContact := now;
      }
      Stepped(t, v, Load(slot), ok, now);
      Elapse(t, v, if ok then Register else AfterFailure(ProcedureAt(v.site), slot));
    }

    method RegisterFn(t: Thread, ghost v: Visit) returns (ok: bool)
      requires Valid() && Visiting(v, m, Register) && v.t == t
      modifies this
      ensures Valid() && Visiting(v, m, if ok then Revive else Return(RegisterFailed))
    {
      hide Execute, Proceed, Visiting;
      ok := *;
      QuietCall(cfg, m, v.t, v.site, Register, ok, 0);
      Stepped(t, v, Register, ok, 0);
      Elapse(t, v, if ok then Revive else Return(RegisterFailed));
    }

    // ---------- resetMu ----------

    /** Others may hold the mutex for as long as they like; at start-up there are no others. */
    method AwaitLock(t: Thread, site: Site) returns (free: bool)
      requires Valid() && PcOf(m, t) == Want(site)
      modifies this
      ensures Valid() && Kept(old(m), m, t) && PcOf(m, t) == Want(site)
      ensures free == (resetMu == None) && Owner(site) == t && (Starting(site) ==> free)
    {
      hide Execute, Kept;
      Others(t);
      WantsOwnRun(cfg, actions, t);
      free := resetMu == None;
    }

    /** Lock; false means that the thread is still waiting. */
    method Lock(t: Thread, site: Site) returns (got: bool, ghost v: Visit)
      requires Valid() && PcOf(m, t) == Want(site)
      modifies this
      ensures Valid() && Owner(site) == t && (Starting(site) ==> got)
      ensures !got ==> Kept(old(m), m, t) && PcOf(m, t) == Want(site)
      ensures got ==> v.t == t && v.site == site && v.switches == [] && Did(old(m), v.from, t, [])
      ensures got ==> Visiting(v, m, First(ProcedureAt(site))) && lastPowerCycle == v.from.lastPowerCycle
    {
      hide Execute, Visiting, First, Kept, Did, Move, ProcedureAt;
      got := AwaitLock(t, site);
      v := Visit(m.(resetMu := Some(t)), t, site, []);
      if got {
        EnterVisits(cfg, m, t, site);
        KeptDid(old(m), m, t);
        DidTrans(old(m), m, v.from, t, [], []);
        NoSwitches([]);
        resetMu := Some(t);
        Took(Act(t, true, 0));
      }
    }

    /** The return of a procedure, which unlocks. */
    method Release(t: Thread, ghost v: Visit, r: Outcome)
      requires Valid() && Visiting(v, m, Return(r)) && v.t == t
      modifies this
      ensures Valid() && Finished(cfg, v, m, r) && Meaning(m, r)
      ensures ByTheScript(cfg, v.site, r, LastVisit(m.log, v.t))
      ensures Starting(v.site) && !Launches(v.site, r) ==> LoopsDormant(m)
    {
      hide Execute, Visiting, Move, Unlock, Meaning, Finished, Launches;
      VisitPc(v, m, Return(r));
      ReturnMeans(cfg, actions, v.t, v.site, r);
      StartAlone(cfg, actions);
      StartingIsMain(v.site);
      if Starting(v.site) && !Launches(v.site, r) {
        StaysAlone(cfg, m, v.site, r);
      }
      LeaveVisits(cfg, v, m, r);
      resetMu := None;
      Took(Act(t, true, 0));
      MeaningKept(old(m), m, v.site, r);
      LastByTheScript(cfg, actions, v.t);
      LastOfFinished(cfg, v, m, r);
    }

    // ---------- The procedures ----------

    method ConnectAndLoad(t: Thread, ghost v: Visit, ghost slot: nat) returns (ok: bool)
      requires Valid() && Visiting(v, m, Connect(slot)) && v.t == t
      modifies this
      ensures Valid() && Visiting(v, m, if ok then Register else AfterFailure(ProcedureAt(v.site), slot))
    {
      hide Execute, Visiting, AfterFailure;
      ok := ConnectFn(t, v, slot);
      if !ok {
        return;
      }
      ok := PasswordEnter(t, v, slot);
      if !ok {
        return;
      }
      ok := LoadNodes(t, v, slot);
    }

    /** The backoff loop shared by doReboot and doPowerCycle, at most one attempt per slot. */
    method Reattempt(t: Thread, ghost v: Visit) returns (r: Outcome)
      requires Valid() && Visiting(v, m, Wait(0)) && v.t == t && Slots(ProcedureAt(v.site)) == SLOTS
      modifies this
      ensures Valid() && Visiting(v, m, Return(r)) && r in [Recovered, Exhausted, Cancelled, RegisterFailed]
    {
      hide Execute, Proceed, Visiting;
      var i := 0;
      while i < SLOTS
        invariant i <= SLOTS && Valid() && Visiting(v, m, Wait(i))
      {
        var fired := SleepOrDone(t, v, Wait(i));
        if !fired {
          return Cancelled;
        }
        var ok := ConnectAndLoad(t, v, i);
        if !ok {
          Disconnect(t, v, Cleanup(i));
        } else {
          ok := RegisterFn(t, v);
          if !ok {
            return RegisterFailed;
          }
          StartHeartbeatFn(t, v);
          return Recovered;
        }
        i := i + 1;
      }
      QuietCall(cfg, m, v.t, v.site, Wait(SLOTS), true, 0);
      Stepped(t, v, Wait(SLOTS), true, 0);
      r := Exhausted;
    }

    /** A procedure that has returned r to its caller: what thread t has done since s, and where it
        stands. Without an outcome it still waits for the mutex. */
    ghost predicate Returned(s: State, t: Thread, site: Site, r: Option<Outcome>, switches: seq<bool>)
      reads this
    {
      match r
      case None => Kept(s, m, t) && PcOf(m, t) == Want(site)
      case Some(outcome) =>
        && Did(s, m, t, switches) && PcOf(m, t) == After(cfg, site, outcome) && resetMu == None
        && LastReturn(m.log, t) == Some((site, outcome)) && Meaning(m, outcome)
        && ByTheScript(cfg, site, outcome, LastVisit(m.log, t))
        && (Launches(site, outcome) ==> Launched(cfg, m))
        && (Starting(site) && !Launches(site, outcome) ==> LoopsDormant(m))
    }

    method DoReconnect(t: Thread, site: Site) returns (r: Option<Outcome>)
      requires Valid() && PcOf(m, t) == Want(site) && ProcedureAt(site) == Reconnect
      modifies this
      ensures Valid() && Returned(old(m), t, site, r, [])
      ensures r in [None, Some(Recovered), Some(Unreachable), Some(RegisterFailed)]
    {
      hide Execute, Visiting, Finished, Meaning, Kept;
      var got;
      ghost var v;
      got, v := Lock(t, site);
      if !got {
        return None;
      }
      StopHeartbeatFn(t, v);
      Disconnect(t, v, HangUp);
      var ok := ConnectAndLoad(t, v, 0);
      if !ok {
        r := Some(Unreachable);
      } else {
        ok := RegisterFn(t, v);
        if !ok {
          r := Some(RegisterFailed);
        } else {
          StartHeartbeatFn(t, v);
          r := Some(Recovered);
        }
      }
      Release(t, v, r.value);
      FinishedReturns(cfg, old(m), v, m, r.value);
    }

    method DoReboot(t: Thread, site: Site) returns (r: Option<Outcome>)
      requires Valid() && PcOf(m, t) == Want(site) && ProcedureAt(site) == Reboot
      modifies this
      ensures Valid() && Returned(old(m), t, site, r, []) && (Starting(site) ==> r.Some?)
      ensures r in [None, Some(Recovered), Some(Exhausted), Some(Cancelled), Some(RegisterFailed)]
      ensures r.Some? ==> Requests(Calls(LastVisit(m.log, t))) == 1
    {
      hide Execute, Visiting, Finished, Meaning, Kept;
      var got;
      ghost var v;
      got, v := Lock(t, site);
      if !got {
        return None;
      }
      StopHeartbeatFn(t, v);
      RebootFn(t, v);
      Disconnect(t, v, HangUp);
      var outcome := Reattempt(t, v);
      Release(t, v, outcome);
      FinishedReturns(cfg, old(m), v, m, outcome);
      ScriptedAsks(cfg, site, outcome, LastVisit(m.log, t));
      r := Some(outcome);
    }

    /** doPowerCycle up to its stamp: turned away, or on. */
    method StampOrTurnAway(t: Thread, now: int, ghost v: Visit) returns (turned: Option<Outcome>, ghost w: Visit)
      requires Valid() && Visiting(v, m, Check) && v.t == t
      modifies this
      ensures Valid()
      ensures turned == if Refusing(cfg) then Some(Refused) else
                        if Debouncing(old(m), now) then Some(Debounced) else None
      ensures turned.Some? ==> w == v && Visiting(w, m, Return(turned.value)) && lastPowerCycle == old(lastPowerCycle)
      ensures turned.None? ==> w == v.(from := v.from.(lastPowerCycle := now)) && Visiting(w, m, Halt)
    {
      hide Execute, Visiting, Move, Goto;
      w := v;
      if !cfg.wired || cfg.topic == "" {
        turned := Some(Refused);
        TurnedAway(cfg, v, m, true, now);
        Took(Act(t, true, now));
        return;
      }
      if lastPowerCycle != 0 && now - lastPowerCycle < GAP {
        turned := Some(Debounced);
        TurnedAway(cfg, v, m, true, now);
        Took(Act(t, true, now));
        return;
      }
      StampVisits(cfg, v, m, true, now);
      lastPowerCycle := now;
      turned := None;
      w := v.(from := v.from.(lastPowerCycle := now));
      Took(Act(t, true, now));
    }

    /** The rest of doPowerCycle: the outage and the reconnect. */
    method CycleAndReattempt(t: Thread, ghost v: Visit) returns (r: Outcome, ghost w: Visit)
      requires Valid() && Visiting(v, m, Halt) && v.t == t && ProcedureAt(v.site) == PowerCycle && v.switches == []
      modifies this
      ensures Valid() && r in [Recovered, Exhausted, Cancelled, RegisterFailed]
      ensures w == v.(switches := [false, true]) && Visiting(w, m, Return(r))
    {
      hide Execute, Visiting;
      StopHeartbeatFn(t, v);
      w := PublishFn(t, v, false, false);
      Disconnect(t, w, HangUp);
      var fired := SleepOrDone(t, w, Dwell);
      w := PublishFn(t, w, true, !fired);
      if !fired {
        r := Cancelled;
      } else {
        r := Reattempt(t, w);
      }
    }

    /** now is the clock, read with the mutex held; the stamp it is compared with is the one found then. */
    method DoPowerCycle(t: Thread, site: Site, now: int)
      returns (r: Option<Outcome>, ghost switches: seq<bool>, ghost stamp: int)
      requires Valid() && PcOf(m, t) == Want(site) && ProcedureAt(site) == PowerCycle
      modifies this
      ensures Valid() && Returned(old(m), t, site, r, switches) && (Starting(site) ==> r.Some?)
      ensures r in [None, Some(Refused), Some(Debounced), Some(Recovered), Some(Exhausted), Some(Cancelled),
                    Some(RegisterFailed)]
      ensures r.Some? ==> (r.value == Refused <==> Refusing(cfg))
      ensures r.Some? ==> (r.value == Debounced <==> !Refusing(cfg) && stamp != 0 && now - stamp < GAP)
      ensures switches == if r in [None, Some(Refused), Some(Debounced)] then [] else [false, true]
      ensures r.Some? ==> lastPowerCycle == if switches == [] then stamp else now
    {
      hide Execute, Visiting, Finished, Meaning, Kept, Refusing, Did, LastReturn, Launched, Launches,
           LoopsDormant, After;
      var got;
      ghost var v;
      got, v := Lock(t, site);
      switches, stamp := [], lastPowerCycle;
      if !got {
        return None, [], stamp;
      }
      ghost var from := v.from;
      var turned;
      turned, v := StampOrTurnAway(t, now, v);
      var outcome;
      if turned.Some? {
        outcome := turned.value;
      } else {
        outcome, v := CycleAndReattempt(t, v);
        switches := [false, true];
      }
      SameVisitStart(old(m), from, v, now);
      Release(t, v, outcome);
      FinishedReturns(cfg, old(m), v, m, outcome);
      FinishedStamp(cfg, v, m, outcome);
      r := Some(outcome);
    }

    // ---------- checkHealth and escalateToPowerCycle ----------

    /** MarkAllAvailable or MarkAllUnavailable, after the flag has been flipped. */
    method MarkAll(available: bool)
      requires Valid() && m.health == Announce(available)
      modifies this
      ensures Valid() && Worked(old(m), m, [], [available]) && wedged == old(wedged)
      ensures LastReturn(m.log, Health) == LastReturn(old(m).log, Health)
      ensures m.health == if available then Idle else AfterUnavailable(cfg)
    {
      hide Execute, Worked, Move, AfterUnavailable, Kept, LastReturn;
      Others(Health);
      KeptWork(old(m), m);
      ghost var u := m;
      AnnounceMove(cfg, m, available);
      Took(Act(Health, true, 0));
      WorkedTrans(old(m), u, m, [], [], [], [available]);
      NoSwitches([]);
      NoSwitches([available]);
    }

    /** The end of a recovery by the health check: CompareAndSwap(true, false), and the call it leads to. */
    method Recover()
      requires Valid() && m.health == Restored
      modifies this
      ensures Valid() && m.health == Idle && !wedged
      ensures LastReturn(m.log, Health) == LastReturn(old(m).log, Health)
      ensures Worked(old(m), m, [], if old(wedged) then [true] else [])
    {
      hide Execute, Worked, Move, LastReturn;
      RestoredMove(cfg, m);
      Took(Act(Health, true, 0));
      ghost var u := m;
      if wedged {
        wedged := false;
        MarkAll(true);
        WorkedTrans(old(m), u, m, [], [], [], [true]);
        NoSwitches([]);
        NoSwitches([true]);
      }
    }

    /** A reconnect or reboot of the health check that has failed. */
    ghost predicate SoftPathFailed()
      reads this
    {
      var last := LastReturn(m.log, Health);
      last.Some? && (last.value.0 == TickReconnect || last.value.0 == TickReboot) && last.value.1 != Recovered
    }

    /** How a pass of the health check over an unreachable gateway ends: with a reboot that recovered
        the bridge; if there is a plug, with a power cycle; and only without one with a failed reconnect or
        reboot. */
    ghost predicate Concluded()
      reads this
    {
      var last := LastReturn(m.log, Health);
      || (last == Some((TickReboot, Recovered)) && !wedged)
      || (last.Some? && last.value.0 == TickCycle && cfg.topic != "" && (wedged <==> last.value.1 != Recovered))
      || (SoftPathFailed() && cfg.topic == "" && wedged)
    }

    /** What a pass may still be waiting for: the reconnect; the reboot, when the reconnect has recovered;
        the power cycle, when one of them has failed and there is a plug. */
    ghost predicate Underway()
      reads this
    {
      && wedged
      && (|| m.health == Want(TickReconnect)
          || (m.health == Want(TickReboot) && LastReturn(m.log, Health) == Some((TickReconnect, Recovered)))
          || (m.health == Want(TickCycle) && cfg.topic != "" && SoftPathFailed()))
    }

    /** A pass is done exactly if the loop is idle again. */
    ghost predicate Settled(done: bool)
      reads this
    {
      if done then m.health == Idle && Concluded() else Underway()
    }

    /** The plug is switched off and on once, or not at all. */
    method EscalateToPowerCycle(now: int) returns (done: bool, ghost switches: seq<bool>)
      requires Valid() && m.health == Escalate(cfg) && wedged
      requires SoftPathFailed()
      modifies this
      ensures Valid() && Settled(done) && Worked(old(m), m, switches, if wedged then [] else [true])
      ensures !done ==> m.health == Want(TickCycle)
      ensures switches == [] || (switches == [false, true] && !Refusing(cfg))
    {
      hide Execute, Worked, Move, Kept, Did, Meaning, LastReturn;
      done, switches := true, [];
      if cfg.topic == "" {
        KeptNothing(m, Health);
        KeptWork(m, m);
        return;
      }
      var r;
      ghost var stamp;
      r, switches, stamp := DoPowerCycle(Health, TickCycle, now);
      if r == None {
        KeptWork(old(m), m);
        return false, [];
      }
      DidWork(old(m), m, switches);
      if r.value != Recovered {
        return;
      }
      ghost var u := m;
      Recover();
      WorkedTrans(old(m), u, m, switches, [], [], [true]);
      NoSwitches(switches);
      NoSwitches([true]);
    }

    /** The first half of checkHealth: the age of the last contact, the flag and its announcement. */
    method Examine(now: int) returns (stale: bool, ghost marks: seq<bool>)
      requires Valid() && m.health == Idle
      modifies this
      ensures Valid() && stale == wedged == IsStale(cfg, old(m), now)
      ensures stale <==> old(lastContact) + Interval(cfg) + Interval(cfg) < now
      ensures LastReturn(m.log, Health) == LastReturn(old(m).log, Health)
      ensures marks == (if old(wedged) == stale then [] else [!stale]) && Worked(old(m), m, [], marks)
      ensures m.health == if stale then AfterUnavailable(cfg) else Idle
    {
      StaleIs(cfg, m, now);
      hide Execute, Worked, Move, AfterUnavailable, TooOld, IsStale, LastReturn;
      stale := TooOld(cfg, lastContact, now);
      TickMove(cfg, m, now);
      Took(Act(Health, true, now));
      marks := [];
      if wedged != stale {
        ghost var u := m;
        wedged := stale;
        MarkAll(!stale);
        marks := [!stale];
        WorkedTrans(old(m), u, m, [], [], [], marks);
        NoSwitches([]);
        NoSwitches(marks);
      }
    }

    /** One pass of the health check; later is the clock of a power cycle it may come to. It announces
        exactly the changes of the flag, reacts only if restart-on-error is set, restores availability
        exactly if its last procedure has recovered, and does not give up before it has tried the reboot
        and, if there is one, the plug. */
    method CheckHealth(now: int, later: int) returns (done: bool, ghost switches: seq<bool>)
      requires Valid() && m.health == Idle
      modifies this
      ensures Valid()
      ensures cfg.healthInterval <= 0 ==> done && m == old(m) && switches == []
      ensures cfg.healthInterval > 0 && !IsStale(cfg, old(m), now) ==>
                && done && m.health == Idle && !wedged
                && switches == [] && Worked(old(m), m, [], if old(wedged) then [true] else [])
      ensures cfg.healthInterval > 0 && IsStale(cfg, old(m), now) ==>
                && Worked(old(m), m, switches, (if old(wedged) then [] else [false]) + (if wedged then [] else [true]))
                && (if cfg.restartOnError then Settled(done) else done && wedged && m.health == Idle && switches == [])
                && (switches == [] || (switches == [false, true] && !Refusing(cfg)))
      ensures m.health == Want(TickReconnect) ==> LastReturn(m.log, Health) == LastReturn(old(m).log, Health)
    {
      hide Execute, Worked, IsStale, LastReturn;
      done, switches := true, [];
      if cfg.healthInterval <= 0 {
        return;
      }
      var stale;
      ghost var marks, more, u;
      stale, marks := Examine(now);
      NoSwitches(marks);
      if !stale || !cfg.restartOnError {
        return;
      }
      u := m;
      done, switches, more := ReactToWedge(later);
      WorkedTrans(old(m), u, m, [], marks, switches, more);
      NoSwitches(switches);
    }

    /** The reactive part of checkHealth: reconnect, reboot, and escalation when one of them fails. */
    method ReactToWedge(later: int) returns (done: bool, ghost switches: seq<bool>, ghost marks: seq<bool>)
      requires Valid() && m.health == Want(TickReconnect) && wedged
      modifies this
      ensures Valid() && Settled(done) && Worked(old(m), m, switches, marks)
      ensures marks == if wedged then [] else [true]
      ensures switches == [] || (switches == [false, true] && !Refusing(cfg))
      ensures m.health == Want(TickReconnect) ==> LastReturn(m.log, Health) == LastReturn(old(m).log, Health)
    {
      hide Execute, Worked, Move, Kept, Did, Meaning, LastReturn;
      marks := [];
      var r := DoReconnect(Health, TickReconnect);
      if r == None {
        KeptWork(old(m), m);
        return false, [], [];
      }
      DidWork(old(m), m, []);
      ghost var u := m;
      if r.value == Recovered {
        r := DoReboot(Health, TickReboot);
        if r == None {
          KeptWork(u, m);
          WorkedTrans(old(m), u, m, [], [], [], []);
          NoSwitches([]);
          return false, [], [];
        }
        DidWork(u, m, []);
        WorkedTrans(old(m), u, m, [], [], [], []);
        NoSwitches([]);
        u := m;
      }
      if r.value != Recovered {
        done, switches := EscalateToPowerCycle(later);
      } else {
        done, switches := true, [];
        Recover();
      }
      marks := if wedged then [] else [true];
      WorkedTrans(old(m), u, m, [], [], switches, marks);
      NoSwitches(switches);
      NoSwitches(marks);
    }

    // ---------- runPeriodicRestart ----------

    /** One tick of the periodic restart: a power cycle if configured, with the soft reboot as fallback
        unless the cycle recovered the bridge or was debounced; otherwise the soft reboot. */
    method RunPeriodicRestart(now: int) returns (done: bool, ghost switches: seq<bool>)
      requires Valid() && m.periodic == Idle
      modifies this
      ensures Valid() && Did(old(m), m, Periodic, switches)
      ensures if done then m.periodic == Idle
              else m.periodic == Want(TimedReboot)
                   || (m.periodic == Want(TimedCycle) && cfg.periodicPowerCycle && cfg.topic != "")
      ensures switches == [] || (switches == [false, true] && cfg.periodicPowerCycle && !Refusing(cfg))
      ensures done ==> PeriodicEnding(cfg, LastReturn(m.log, Periodic), switches)
    {
      hide Execute, Meaning, Move, Kept, Did, LastReturn;
      PeriodicMove(cfg, m);
      Took(Act(Periodic, true, 0));
      ghost var s0 := m;
      done, switches := true, [];
      if cfg.periodicPowerCycle && cfg.topic != "" {
        var r;
        ghost var stamp;
        r, switches, stamp := DoPowerCycle(Periodic, TimedCycle, now);
        if r == None {
          KeptDid(s0, m, Periodic);
          JoinDid(old(m), s0, m, Periodic, []);
          return false, [];
        }
        JoinDid(old(m), s0, m, Periodic, switches);
        if r.value == Recovered || r.value == Debounced {
          return;
        }
        s0 := m;
      }
      done := PeriodicReboot();
      DidTrans(old(m), s0, m, Periodic, switches, []);
      NoSwitches(switches);
    }

    method PeriodicReboot() returns (done: bool)
      requires Valid() && m.periodic == Want(TimedReboot)
      modifies this
      ensures Valid() && Did(old(m), m, Periodic, [])
      ensures m.periodic == if done then Idle else Want(TimedReboot)
      ensures done ==> LastReturn(m.log, Periodic).Some? && LastReturn(m.log, Periodic).value.0 == TimedReboot
    {
      hide Execute, Meaning, Kept, Did, LastReturn;
      var r := DoReboot(Periodic, TimedReboot);
      if r == None {
        KeptDid(old(m), m, Periodic);
      }
      done := r.Some?;
    }

    // ---------- Start and Stop ----------

    /** Start, with the clock at its beginning and at a power cycle it may come to. It succeeds exactly
        when the loops are launched, and then the heartbeat runs; it gives up on an unreachable gateway
        only after a power cycle, if there is a plug. */
    method Start(now: int, later: int) returns (ok: bool, ghost switches: seq<bool>)
      requires Valid() && m.main == Dormant
      modifies this
      ensures Valid() && m.main == Idle && Did(old(m), m, Main, switches)
      ensures if ok then Launched(cfg, m) && heartbeat else LoopsDormant(m)
      ensures StartEnding(cfg, LastReturn(m.log, Main), ok)
      ensures switches == [] || (switches == [false, true] && !Refusing(cfg))
    {
      hide Execute, Visiting, Finished, Meaning, Refusing, Move, Launched, Did, LastReturn;
      StartMove(cfg, m, now);
      lastContact := now;
      Took(Act(Main, true, now));
      ghost var s0 := m;
      ghost var v := Visit(m, Main, StartUp, []);
      KeptNothing(m, Main);
      KeptDid(m, m, Main);
      switches := [];
      ok := ConnectAndLoad(Main, v, 0);
      if !ok {
        Release(Main, v, Unreachable);
        FinishedReturns(cfg, s0, v, m, Unreachable);
        JoinDid(old(m), s0, m, Main, []);
        if cfg.topic == "" {
          return;
        }
        s0 := m;
        ok, switches := StartByPowerCycle(later);
        JoinDid(old(m), s0, m, Main, switches);
      } else {
        ok := RegisterFn(Main, v);
        if !ok {
          Release(Main, v, RegisterFailed);
          FinishedReturns(cfg, s0, v, m, RegisterFailed);
          JoinDid(old(m), s0, m, Main, []);
          return;
        }
        StartHeartbeatFn(Main, v);
        Release(Main, v, Recovered);
        FinishedReturns(cfg, s0, v, m, Recovered);
        JoinDid(old(m), s0, m, Main, []);
        s0 := m;
        ok := StartByReboot();
        JoinDid(old(m), s0, m, Main, []);
      }
    }

    /** The bring-up failed: the power cycle on startup. */
    method StartByPowerCycle(now: int) returns (ok: bool, ghost switches: seq<bool>)
      requires Valid() && m.main == Want(StartCycle)
      modifies this
      ensures Valid() && m.main == Idle && Did(old(m), m, Main, switches)
      ensures ok ==> Launched(cfg, m) && heartbeat
      ensures !ok ==> LoopsDormant(m)
      ensures LastWas(LastReturn(m.log, Main), StartCycle, ok)
      ensures switches == [] || (switches == [false, true] && !Refusing(cfg))
    {
      hide Execute, Meaning, Kept, Did, Refusing, Launched, LastReturn;
      var r;
      ghost var stamp;
      r, switches, stamp := DoPowerCycle(Main, StartCycle, now);
      ok := r.value == Recovered;
      if ok {
        RecoveredBeats(m);
      }
    }

    /** The bring-up succeeded: the reboot on startup. */
    method StartByReboot() returns (ok: bool)
      requires Valid() && m.main == Want(StartReboot)
      modifies this
      ensures Valid() && m.main == Idle && Did(old(m), m, Main, [])
      ensures ok ==> Launched(cfg, m) && heartbeat
      ensures !ok ==> LoopsDormant(m)
      ensures LastWas(LastReturn(m.log, Main), StartReboot, ok)
    {
      hide Execute, Meaning, Kept, Did, Launched, LastReturn;
      var r := DoReboot(Main, StartReboot);
      ok := r.value == Recovered;
      if ok {
        RecoveredBeats(m);
      }
    }

    /** Stop. It may still be waiting, for the mutex or for the loops; once done, the loops are over, the
        client is disconnected, and a heartbeat runs if and only if the last procedure that was not
        turned away at its start has recovered. */
    method Stop() returns (done: bool)
      requires Valid() && m.main == Idle
      modifies this
      ensures Valid() && SwitchesOf(m.log, Main) == SwitchesOf(old(m).log, Main)
      ensures if done then m.main == Ended else m.main == Want(Shutdown) || m.main == Joining
      ensures done ==> Over(m.health) && Over(m.periodic) && !connected
      ensures done ==> (heartbeat <==> LeftBeating(m.log))
    {
      hide Execute, Move, Kept, SwitchesOf, LeftBeating;
      StopMove(cfg, m);
      stopping := true;
      Took(Act(Main, true, 0));
      done := StopUnderLock();
      if !done {
        return;
      }
      ghost var u := m;
      Others(Main);
      KeptSwitches(u, m, Main);
      done := Over(m.health) && Over(m.periodic);
      if done {
        CloseDown();
        Recovery.HeartbeatAfterStopIff(cfg, actions);
      }
    }

    /** The critical section of Stop. */
    method StopUnderLock() returns (got: bool)
      requires Valid() && m.main == Want(Shutdown)
      modifies this
      ensures Valid() && m.main == (if got then Joining else Want(Shutdown))
      ensures SwitchesOf(m.log, Main) == SwitchesOf(old(m).log, Main)
      ensures got ==> !heartbeat
    {
      hide Execute, Visiting, Finished, Meaning, Move, Kept, SwitchesOf;
      ghost var v;
      got, v := Lock(Main, Shutdown);
      if !got {
        KeptSwitches(old(m), m, Main);
        return;
      }
      StopHeartbeatFn(Main, v);
      Release(Main, v, Halted);
      FinishedReturns(cfg, old(m), v, m, Halted);
      DidSwitches(old(m), m, Main);
      HaltedIsStill(m);
    }

    /** The end of Stop, after its wait for the loops. */
    method CloseDown()
      requires Valid() && m.main == Joining && Over(m.health) && Over(m.periodic)
      modifies this
      ensures Valid() && m.main == Ended && m.health == old(m).health && m.periodic == old(m).periodic
      ensures !connected && SwitchesOf(m.log, Main) == SwitchesOf(old(m).log, Main)
    {
      hide Execute, Move, SwitchesOf;
      CloseMoves(cfg, m);
      Took(Act(Main, true, 0));
      connected := false;
      Took(Act(Main, true, 0));
    }
  }
}
