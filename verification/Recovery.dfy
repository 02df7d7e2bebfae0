/** What the recovery supervisor guarantees in every run, whatever the interleaving and the outcomes
    (app/app.go). */
module Recovery {
  import opened Bytes
  import opened Choreography
  import opened RunLog
  import opened Supervisor

  // ---------- Mutual exclusion ----------

  /** Recovery procedures never overlap: at most one thread is inside one, and from the end of the
      first bring-up on it is the holder of resetMu. */
  lemma MutualExclusion(cfg: Config, actions: seq<Action>, t: Thread, other: Thread)
    ensures var s := Execute(cfg, actions);
            && (PcOf(s, t).In? && PcOf(s, other).In? ==> t == other)
            && (s.resetMu == Some(t) <==> PcOf(s, t).In? && PcOf(s, t).site != StartUp)
  {
    RunSafety(cfg, actions);
    var s := Execute(cfg, actions);
    hide Execute, Coherent, Inner, Inside;
    if PcOf(s, t).In? && t != other {
      OnlyOneInside(cfg, s, t, other);
    }
  }

  // ---------- The plug ----------

  lemma {:induction false} PublishesAsConfigured(cfg: Config, l: Log)
    requires Lawful(cfg, l)
    ensures forall e :: e in Events(l) && e.Publish? ==>
              e.topic == cfg.topic != "" && !e.retained && ProcedureAt(e.site) == PowerCycle
  {
    if l.Then? {
      PublishesAsConfigured(cfg, l.before);
    }
  }

  /** The power is off only between HangUp and Restore of the one power cycle in progress. */
  lemma DarkOnlyInside(cfg: Config, s: State, t: Thread)
    requires Invariant(cfg, s)
    ensures PlugOff(s.log) ==> s.resetMu.Some?
    ensures s.resetMu == Some(t) ==>
              PcOf(s, t).In? && (PlugOff(s.log) <==> Dark(ProcedureAt(PcOf(s, t).site), PcOf(s, t).at))
  {
    hide Coherent, PlugOff, Inside, HealthReason;
    if Inside(s.log).Some? {
      var who := Owner(Inside(s.log).value);
      assert ThreadOk(cfg, s, who);
    }
  }

  /** In every run the power cycles publish (OFF, ON)*, not retained and to the configured topic only,
      and nothing if there is none. A trailing OFF exists exactly while the holder of resetMu stands
      between its publish of OFF and its publish of ON. */
  lemma PlugSafety(cfg: Config, actions: seq<Action>)
    ensures var s := Execute(cfg, actions);
            var switches := PlugSwitches(s.log);
            && Alternates(switches)
            && (cfg.topic == "" ==> switches == [])
            && (forall e :: e in Events(s.log) && e.Publish? ==>
                  e.topic == cfg.topic && !e.retained && ProcedureAt(e.site) == PowerCycle)
            && (|switches| % 2 == 1 <==>
                s.resetMu.Some? && PcOf(s, s.resetMu.value).In?
                && Dark(ProcedureAt(PcOf(s, s.resetMu.value).site), PcOf(s, s.resetMu.value).at))
  {
    RunSafety(cfg, actions);
    var s := Execute(cfg, actions);
    PlugAlternates(cfg, s.log);
    PublishesAsConfigured(cfg, s.log);
    hide Execute, PlugOff, Invariant, Dark;
    if s.resetMu.Some? {
      DarkOnlyInside(cfg, s, s.resetMu.value);
    } else {
      DarkOnlyInside(cfg, s, Main);
    }
  }

  // ---------- Runs of one thread ----------

  /** n moves of t in a row. */
  function Own(t: Thread, ok: bool, now: int, n: nat): seq<Action> {
    if n == 0 then [] else Own(t, ok, now, n - 1) + [Act(t, ok, now)]
  }

  function Moves(cfg: Config, s: State, t: Thread, ok: bool, now: int, n: nat): State {
    if n == 0 then s else Move(cfg, Moves(cfg, s, t, ok, now, n - 1), t, ok, now)
  }

  lemma {:induction false} OwnRun(cfg: Config, actions: seq<Action>, t: Thread, ok: bool, now: int, n: nat)
    ensures Execute(cfg, actions + Own(t, ok, now, n)) == Moves(cfg, Execute(cfg, actions), t, ok, now, n)
  {
    hide Execute, Move;
    if n == 0 {
      assert actions + Own(t, ok, now, 0) == actions;
    } else {
      OwnRun(cfg, actions, t, ok, now, n - 1);
      var before := actions + Own(t, ok, now, n - 1);
      assert actions + Own(t, ok, now, n) == before + [Act(t, ok, now)];
      ExecuteOne(cfg, before, Act(t, ok, now));
    }
  }

  /** From every reachable state with the power off, at most three moves of the thread that cut it
      restore it, whether its timer fires or its context is done: no call in between can prevent it. */
  lemma PowerRestored(cfg: Config, actions: seq<Action>, t: Thread, ok: bool, now: int)
    requires PlugOff(Execute(cfg, actions).log) && Execute(cfg, actions).resetMu == Some(t)
    requires ok || ContextDone(Execute(cfg, actions), t)
    ensures exists n :: n <= 3 && !PlugOff(Execute(cfg, actions + Own(t, ok, now, n)).log)
  {
    RunSafety(cfg, actions);
    var s := Execute(cfg, actions);
    DarkOnlyInside(cfg, s, t);
    var n := match PcOf(s, t).at case HangUp => 3 case Dwell => 2 case _ => 1;
    OwnRun(cfg, actions, t, ok, now, n);
    RestoresIn(cfg, s, t, PcOf(s, t).site, PcOf(s, t).at, ok, now);
  }

  lemma DarkStep(cfg: Config, s: State, t: Thread, site: Site, at: At, ok: bool, now: int)
    requires PcOf(s, t) == In(site, at) && Dark(ProcedureAt(site), at)
    requires ok || ContextDone(s, t)
    ensures var u := Move(cfg, s, t, ok, now);
            && u.cancelled == s.cancelled
            && match at
               case HangUp => PcOf(u, t) == In(site, Dwell)
               case Dwell => PcOf(u, t) == In(site, Restore(!ok))
               case _ => !PlugOff(u.log)
  {
    hide Move, Proceed;
    MoveIn(cfg, s, t, site, at, ok, now);
    ProceedGrows(cfg, s, t, site, at, ok, now);
    ProceedOwnPc(cfg, s, t, site, at, ok, now);
    CallRecorded(cfg, s, t, site, at, ok, now);
  }

  lemma RestoresIn(cfg: Config, s: State, t: Thread, site: Site, at: At, ok: bool, now: int)
    requires PcOf(s, t) == In(site, at) && Dark(ProcedureAt(site), at)
    requires ok || ContextDone(s, t)
    ensures !PlugOff(Moves(cfg, s, t, ok, now, match at case HangUp => 3 case Dwell => 2 case _ => 1).log)
  {
    hide Move, PlugOff;
    DarkStep(cfg, s, t, site, at, ok, now);
    var s1 := Moves(cfg, s, t, ok, now, 1);
    assert Moves(cfg, s, t, ok, now, 0) == s;
    if !at.Restore? {
      DarkStep(cfg, s1, t, site, PcOf(s1, t).at, ok, now);
      var s2 := Moves(cfg, s, t, ok, now, 2);
      if at.HangUp? {
        DarkStep(cfg, s2, t, site, Restore(!ok), ok, now);
      }
    }
  }

  // ---------- Bring-up ----------

  /** Every event of every run stood in a history that allows it. In particular Connect is never called
      on a connected client, while a heartbeat runs or while the power is off, nor more often than the
      schedule has slots; no heartbeat is started while one runs; a nil result means connected, logged
      in, loaded, registered and heartbeat running; an exhausted schedule means all its slots tried,
      disconnected and heartbeat stopped; and every return leaves the power on. */
  lemma BringUpSafety(cfg: Config, actions: seq<Action>, b: Log, e: Event)
    requires Continued(Execute(cfg, actions).log, b, e)
    ensures match e
            case Dial(_) =>
              && !Up(b) && !Beating(b) && !PlugOff(b)
              && Inside(b).Some? && Attempts(b) < Slots(ProcedureAt(Inside(b).value))
            case StartHeartbeat => !Beating(b) && Progress(b) == 4
            case Leave(site, outcome) =>
              && Inside(b) == Some(site) && !PlugOff(b)
              && (outcome == Recovered ==> Progress(b) == 5 && Beating(b))
              && (outcome == Exhausted ==> Attempts(b) == SLOTS && !Up(b) && !Beating(b))
            case _ => true
  {
    RunSafety(cfg, actions);
    EveryEventAllowed(cfg, Execute(cfg, actions).log, b, e);
  }

  /** Heartbeats start and stop in turn, so that each is stopped at most once; one is running exactly
      when the last was not stopped. */
  lemma HeartbeatSafety(cfg: Config, actions: seq<Action>)
    ensures var s := Execute(cfg, actions);
            Alternates(Beats(s.log)) && (s.heartbeat <==> |Beats(s.log)| % 2 == 1)
  {
    RunSafety(cfg, actions);
    HeartbeatsAlternate(cfg, Execute(cfg, actions).log);
  }

  // ---------- Availability ----------

  /** MarkAllUnavailable and MarkAllAvailable alternate, starting with unavailable, and their numbers
      differ by one exactly while the covers are unavailable: when wedged is set, except between the
      flip of the flag and the call it leads to. */
  lemma AvailabilitySafety(cfg: Config, actions: seq<Action>)
    ensures var s := Execute(cfg, actions);
            var marks := Transitions(s.log);
            && Alternates(marks)
            && Count(marks, false) - Count(marks, true)
               == if (if s.health.Announce? then !s.wedged else s.wedged) then 1 else 0
  {
    RunSafety(cfg, actions);
    var s := Execute(cfg, actions);
    AvailabilityAlternates(cfg, s.log);
    AlternationCounts(Transitions(s.log));
    hide Execute, Inner, Lawful, Offline, Transitions, Count, Inside;
  }

  // ---------- Escalation ----------

  /** A health check cuts the power only with restart-on-error and a topic configured, after finding the
      last contact too old, and after its own reconnect or reboot has failed in that same tick. */
  lemma EscalationLadder(cfg: Config, actions: seq<Action>, k: nat)
    requires k < |Events(Execute(cfg, actions).log)|
    requires Events(Execute(cfg, actions).log)[k].Publish?
             && Events(Execute(cfg, actions).log)[k].site == TickCycle && !Events(Execute(cfg, actions).log)[k].on
    ensures cfg.restartOnError && cfg.topic != "" && EscalatedAt(Events(Execute(cfg, actions).log), k)
  {
    RunSafety(cfg, actions);
    CutsEscalate(cfg, Execute(cfg, actions).log, k);
  }

  // ---------- Contact ----------

  /** The events that are contacts with the gateway: the begin of Start and the end of a successful
      load. */
  predicate Contacts(l: Log, k: Log) {
    k.Then? && k.before == l && (k.event == Enter(StartUp) || k.event == Loaded)
  }

  /** In every run the last contact is the clock of the last step that was one, or at which a frame or a
      heartbeat confirmation arrived. */
  lemma LastContactIs(cfg: Config, actions: seq<Action>, a: Action)
    ensures var s := Execute(cfg, actions);
            var u := Execute(cfg, actions + [a]);
            u.lastContact == if a.Contact? || (a.Act? && Contacts(s.log, u.log)) then a.now else s.lastContact
  {
    var s := Execute(cfg, actions);
    ExecuteOne(cfg, actions, a);
    RunSafety(cfg, actions);
    hide Execute, Happen, Move, Invariant;
    if a.Act? {
      MoveContact(cfg, s, a.t, a.ok, a.now);
    } else {
      HappenFrame(s, Lost);
    }
  }

  lemma MoveContact(cfg: Config, s: State, t: Thread, ok: bool, now: int)
    requires Invariant(cfg, s)
    ensures var u := Move(cfg, s, t, ok, now);
            u.lastContact == if Contacts(s.log, u.log) then now else s.lastContact
  {
    hide Invariant, IdleStep, Unlock, Proceed, Entered, AfterUnavailable;
    match PcOf(s, t)
    case Idle => IdleContact(cfg, s, t, ok, now);
    case Want(site) =>
      WantsOwn(cfg, s, t);
      EnteredContact(s, t, site);
      NoContact(s.log);
    case In(site, at) =>
      if at.Return? {
        UnlockContact(cfg, s, t, site, at.outcome);
      } else {
        MoveIn(cfg, s, t, site, at, ok, now);
        ProceedContact(cfg, s, t, site, at, ok, now);
      }
    case Announce(available) => AnnounceContact(cfg, s, t, available, ok, now);
    case _ => OtherContact(cfg, s, t, ok, now);
  }

  lemma NoContact(l: Log)
    ensures !Contacts(l, l)
  {
    if l.Then? {
      Longer(l.before, l.event);
    }
  }

  lemma IdleContact(cfg: Config, s: State, t: Thread, ok: bool, now: int)
    ensures var u := IdleStep(cfg, s, t, ok, now); u.lastContact == s.lastContact && !Contacts(s.log, u.log)
  {
    NoContact(s.log);
    hide IsStale, AfterUnavailable;
  }

  lemma EnteredContact(s: State, t: Thread, site: Site)
    requires site != StartUp
    ensures Entered(s, t, site).lastContact == s.lastContact && !Contacts(s.log, Entered(s, t, site).log)
  {
    hide First, ProcedureAt;
  }

  lemma UnlockContact(cfg: Config, s: State, t: Thread, site: Site, outcome: Outcome)
    ensures var u := Unlock(cfg, s, t, site, outcome);
            u.lastContact == s.lastContact && !Contacts(s.log, u.log)
  {
    hide After, Launches, Happen;
    HappenFrame(s.(resetMu := None), Leave(site, outcome));
  }

  lemma ProceedContact(cfg: Config, s: State, t: Thread, site: Site, at: At, ok: bool, now: int)
    ensures var u := Proceed(cfg, s, t, site, at, ok, now);
            u.lastContact == if Contacts(s.log, u.log) then now else s.lastContact
  {
    hide Next, Happen, Call;
    NoContact(s.log);
    ProceedGrows(cfg, s, t, site, at, ok, now);
    var call := Call(cfg, s, site, at, ok, now);
    LoadedByLoad(cfg, s, site, at, ok, now);
    if call.Some? {
      HappenFrame(s, call.value);
    }
  }

  lemma LoadedByLoad(cfg: Config, s: State, site: Site, at: At, ok: bool, now: int)
    ensures Call(cfg, s, site, at, ok, now) == Some(Loaded) <==> at.Load? && ok
    ensures Call(cfg, s, site, at, ok, now).Some? ==> !Call(cfg, s, site, at, ok, now).value.Enter?
  {
  }

  lemma AnnounceContact(cfg: Config, s: State, t: Thread, available: bool, ok: bool, now: int)
    requires PcOf(s, t) == Announce(available)
    ensures var u := Move(cfg, s, t, ok, now); u.lastContact == s.lastContact && !Contacts(s.log, u.log)
  {
    AnnounceLog(cfg, s, t, available, ok, now);
    hide AfterUnavailable, Happen;
    HappenFrame(s, if available then Available else Unavailable);
  }

  lemma OtherContact(cfg: Config, s: State, t: Thread, ok: bool, now: int)
    requires PcOf(s, t) in [Dormant, Restored, Joining, Closing, Ended]
    ensures var u := Move(cfg, s, t, ok, now);
            u.lastContact == if Contacts(s.log, u.log) then now else s.lastContact
  {
    NoContact(s.log);
    hide Happen;
    HappenFrame(s.(main := Ended), RunLog.Disconnect);
    HappenFrame(s.(lastContact := now, main := In(StartUp, Connect(0))), Enter(StartUp));
  }

  /** A health check finds the gateway stale exactly if two whole intervals have passed since the last
      contact. */
  lemma StaleIff(cfg: Config, actions: seq<Action>, now: int)
    requires Execute(cfg, actions).health == Idle
    ensures var s := Execute(cfg, actions);
            var interval := cfg.healthInterval * 1_000_000_000;
            Execute(cfg, actions + [Act(Health, true, now)]).log
            == Then(s.log, Tick(s.lastContact + interval + interval < now))
  {
    ExecuteOne(cfg, actions, Act(Health, true, now));
    hide Execute;
  }

  // ---------- Debounce ----------

  /** In every run, whoever asks and however the clock jumps: every cut of the power has its own stamp,
      and as long as no stamp is exactly zero, successive stamps are 15 minutes apart and a window of
      any width holds at most width / 15 min + 1 of them. */
  lemma DebounceBound(cfg: Config, actions: seq<Action>, from: int, width: nat)
    ensures var s := Execute(cfg, actions);
            var stamps := Stamps(s.log);
            && Cuts(s.log) <= |stamps|
            && (forall i :: 0 <= i < |stamps| - 1 && stamps[i] != 0 ==> stamps[i + 1] - stamps[i] >= GAP)
            && (0 !in stamps ==> |InWindow(stamps, from, width)| <= width / GAP + 1)
  {
    RunSafety(cfg, actions);
    var s := Execute(cfg, actions);
    StampsSpaced(cfg, s.log);
    CutsAreStamped(cfg, s.log);
    if 0 !in Stamps(s.log) {
      WindowBound(Stamps(s.log), from, width);
    }
  }

  /** A request is debounced exactly when the last stamp is not zero and less than 15 minutes old. */
  lemma DebouncedIff(cfg: Config, actions: seq<Action>, t: Thread, site: Site, ok: bool, now: int)
    requires PcOf(Execute(cfg, actions), t) == In(site, Check) && cfg.wired && cfg.topic != ""
    ensures var s := Execute(cfg, actions);
            PcOf(Move(cfg, s, t, ok, now), t) == In(site, Return(Debounced))
            <==> LastStamp(s.log).Some? && LastStamp(s.log).value != 0
                 && now - LastStamp(s.log).value < 15 * 60 * 1_000_000_000
  {
    RunSafety(cfg, actions);
  }

  // ---------- Shutdown ----------

  /** Once Stop has returned, nothing happens any more and the client stays disconnected. */
  lemma StopIsFinal(cfg: Config, actions: seq<Action>, a: Action)
    requires Execute(cfg, actions).main == Ended
    ensures var s := Execute(cfg, actions);
            !s.connected && Step(cfg, s, a).log == s.log && Step(cfg, s, a).main == Ended && !Step(cfg, s, a).connected
  {
    RunSafety(cfg, actions);
  }

  /** Whenever nobody is inside a procedure, and so in particular once Stop has returned, a heartbeat
      runs if and only if the last procedure that was not turned away at its start has recovered. */
  lemma HeartbeatAfterStopIff(cfg: Config, actions: seq<Action>)
    ensures var s := Execute(cfg, actions);
            && (Inside(s.log) == None ==> (s.heartbeat <==> LeftBeating(s.log)))
            && (s.main == Ended ==> Inside(s.log) == None && (s.heartbeat <==> LeftBeating(s.log)))
  {
    RunSafety(cfg, actions);
    var s := Execute(cfg, actions);
    BeatingIff(cfg, s.log);
    hide Execute, Inner, LeftBeating, Lawful, Inside;
  }

  /** Unless a recovery is still entered after the critical section of Stop, no heartbeat runs once that
      section has been left. */
  lemma QuietStop(cfg: Config, actions: seq<Action>)
    requires HaltedLast(Execute(cfg, actions).log)
    ensures !Execute(cfg, actions).heartbeat
  {
    RunSafety(cfg, actions);
    HaltedIsQuiet(cfg, Execute(cfg, actions).log);
  }
}
