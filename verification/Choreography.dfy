/** What every visit of a recovery procedure does, call by call, in every run of the supervisor
    (app/app.go): the complete list of its calls, from the lock to the unlock. */
module Choreography {
  import opened Bytes
  import opened RunLog
  import opened Supervisor

  // ---------- The calls of a visit ----------

  /** What belongs to the health check or to the environment, whoever is inside a procedure. */
  predicate Aside(e: Event) {
    e.Lost? || e.Tick? || e.Unavailable? || e.Available?
  }

  /** The calls made since the last procedure was entered. */
  function Calls(l: Log): seq<Event> {
    match l
    case Empty => []
    case Then(b, Enter(_)) => []
    case Then(b, e) => Calls(b) + if Aside(e) then [] else [e]
  }

  /** A heartbeat was running when the last procedure was entered. */
  predicate BeatingBefore(l: Log) {
    match l
    case Empty => false
    case Then(b, Enter(_)) => Beating(b)
    case Then(b, _) => BeatingBefore(b)
  }

  // ---------- The script ----------

  /** How a failed connectAndLoad failed. */
  datatype Failure = NoAnswer | NoLogin | NoNodes

  function Attempt(f: Failure): seq<Event> {
    match f
    case NoAnswer => [Dial(false)]
    case NoLogin => [Dial(true)]
    case NoNodes => [Dial(true), LoggedIn]
  }

  /** Failed attempts of the backoff loop, each followed by the local cleanup. */
  function Retries(failed: seq<Failure>): seq<Event> {
    if failed == [] then []
    else Retries(failed[..|failed| - 1]) + Attempt(failed[|failed| - 1]) + [Disconnect]
  }

  const Loading: seq<Event> := [Dial(true), LoggedIn, Loaded]

  function Quieting(beating: bool): seq<Event> {
    if beating then [StopHeartbeat] else []
  }

  /** The calls up to the disconnect. */
  function Leading(cfg: Config, site: Site, beating: bool, now: int): seq<Event> {
    match ProcedureAt(site)
    case PowerCycle => [Stamp(now)] + Quieting(beating) + [Publish(site, cfg.topic, false, false)]
    case Reboot => Quieting(beating) + [RebootRequest]
    case _ => Quieting(beating)
  }

  /** The calls before the first attempt to connect. */
  function Opening(cfg: Config, site: Site, beating: bool, now: int): seq<Event> {
    match ProcedureAt(site)
    case BringUp => []
    case Halting => Quieting(beating)
    case PowerCycle => Leading(cfg, site, beating, now) + [Disconnect, Publish(site, cfg.topic, true, false)]
    case _ => Leading(cfg, site, beating, now) + [Disconnect]
  }

  /** All calls of a visit that returns this outcome after these failed attempts. */
  function Script(cfg: Config, site: Site, outcome: Outcome, beating: bool, now: int, failed: seq<Failure>): seq<Event>
    requires outcome == Unreachable ==> |failed| == 1
  {
    match outcome
    case Refused | Debounced => []
    case Halted => Quieting(beating)
    case Unreachable => Opening(cfg, site, beating, now) + Attempt(failed[0])
    case Cancelled | Exhausted => Opening(cfg, site, beating, now) + Retries(failed)
    case RegisterFailed => Opening(cfg, site, beating, now) + Retries(failed) + Loading
    case Recovered =>
      Opening(cfg, site, beating, now) + Retries(failed) + (Loading + [Registered, StartHeartbeat])
  }

  /** Which outcomes a procedure has, and after how many failed attempts. */
  predicate Possible(cfg: Config, site: Site, outcome: Outcome, failed: nat) {
    var p := ProcedureAt(site);
    match outcome
    case Refused => p == PowerCycle && (!cfg.wired || cfg.topic == "")
    case Debounced => p == PowerCycle && cfg.wired && cfg.topic != ""
    case Halted => p == Halting
    case Unreachable => (p == BringUp || p == Reconnect) && failed == 1
    case Cancelled => Owner(site) == Main && (p == Reboot || p == PowerCycle) && failed < 7
    case Exhausted => (p == Reboot || p == PowerCycle) && failed == 7
    case RegisterFailed => p != Halting && failed < (if p == Reboot || p == PowerCycle then 7 else 1)
    case Recovered => p != Halting && failed < (if p == Reboot || p == PowerCycle then 7 else 1)
  }

  /** A visit that has been left at this history, with this outcome, went by the script. */
  predicate Performed(cfg: Config, site: Site, outcome: Outcome, l: Log, now: int, failed: seq<Failure>) {
    Possible(cfg, site, outcome, |failed|) && Calls(l) == Script(cfg, site, outcome, BeatingBefore(l), now, failed)
  }

  ghost predicate ByTheScript(cfg: Config, site: Site, outcome: Outcome, l: Log) {
    exists now, failed :: Performed(cfg, site, outcome, l, now, failed)
  }

  // ---------- How far a visit has come ----------

  /** The calls made on the way to each place. */
  function SoFar(cfg: Config, site: Site, at: At, beating: bool, now: int, failed: seq<Failure>): seq<Event>
    requires CountFits(cfg, site, at, |failed|)
  {
    var opening := Opening(cfg, site, beating, now);
    match at
    case Check => []
    case Halt => if ProcedureAt(site) == PowerCycle then [Stamp(now)] else []
    case Ask => Quieting(beating)
    case Cut => [Stamp(now)] + Quieting(beating)
    case HangUp => Leading(cfg, site, beating, now)
    case Dwell => Leading(cfg, site, beating, now) + [Disconnect]
    case Restore(_) => Leading(cfg, site, beating, now) + [Disconnect]
    case Wait(_) => opening + Retries(failed)
    case Connect(_) => opening + Retries(failed)
    case Login(_) => opening + Retries(failed) + [Dial(true)]
    case Load(_) => opening + Retries(failed) + [Dial(true), LoggedIn]
    case Cleanup(slot) => opening + Retries(failed[..slot]) + Attempt(failed[slot])
    case Register => opening + Retries(failed) + Loading
    case Revive => opening + Retries(failed) + (Loading + [Registered])
    case Return(outcome) => Script(cfg, site, outcome, beating, now, failed)
  }

  predicate CountFits(cfg: Config, site: Site, at: At, failed: nat) {
    var p := ProcedureAt(site);
    match at
    case Check => p == PowerCycle && failed == 0
    case Halt => p != BringUp && failed == 0
    case Ask => p == Reboot && failed == 0
    case Cut => p == PowerCycle && failed == 0
    case HangUp => (p == PowerCycle || p == Reboot || p == Reconnect) && failed == 0
    case Dwell => p == PowerCycle && failed == 0
    case Restore(_) => p == PowerCycle && failed == 0
    case Wait(slot) => (p == Reboot || p == PowerCycle) && failed == slot <= 7
    case Connect(slot) => p != Halting && failed == slot < (if p == Reboot || p == PowerCycle then 7 else 1)
    case Login(slot) => p != Halting && failed == slot < (if p == Reboot || p == PowerCycle then 7 else 1)
    case Load(slot) => p != Halting && failed == slot < (if p == Reboot || p == PowerCycle then 7 else 1)
    case Cleanup(slot) => (p == Reboot || p == PowerCycle) && failed == slot + 1 <= 7
    case Register => p != Halting && failed < (if p == Reboot || p == PowerCycle then 7 else 1)
    case Revive => p != Halting && failed < (if p == Reboot || p == PowerCycle then 7 else 1)
    case Return(outcome) => Possible(cfg, site, outcome, failed)
  }

  /** A visit that stands at this place has gone by the script. */
  predicate OnScript(cfg: Config, s: State, site: Site, at: At, now: int, failed: seq<Failure>) {
    && CountFits(cfg, site, at, |failed|)
    && Calls(s.log) == SoFar(cfg, site, at, BeatingBefore(s.log), now, failed)
    && (at.Check? || at.Halt? ==> Beating(s.log) == BeatingBefore(s.log))
    && (at == Restore(true) || at == Return(Cancelled) ==> s.cancelled && Owner(site) == Main)
  }

  ghost predicate Scripted(cfg: Config, s: State, t: Thread) {
    PcOf(s, t).In? ==> exists now, failed :: OnScript(cfg, s, PcOf(s, t).site, PcOf(s, t).at, now, failed)
  }

  // ---------- One step ----------

  lemma OwnCall(cfg: Config, s: State, site: Site, at: At, ok: bool, now: int)
    requires Call(cfg, s, site, at, ok, now).Some?
    ensures var e := Call(cfg, s, site, at, ok, now).value;
            !Aside(e) && !e.Enter? && (at.Check? ==> e.Stamp?)
  {
  }

  lemma EventRecorded(l: Log, e: Event)
    requires !Aside(e) && !e.Enter?
    ensures Calls(Then(l, e)) == Calls(l) + [e] && BeatingBefore(Then(l, e)) == BeatingBefore(l)
    ensures e.Stamp? ==> Beating(Then(l, e)) == Beating(l)
  {
  }

  function AsCalls(call: Option<Event>): seq<Event> {
    match call
    case None => []
    case Some(e) => [e]
  }

  /** A step inside a procedure records its call and nothing else. */
  lemma CallRecorded(cfg: Config, s: State, t: Thread, site: Site, at: At, ok: bool, now: int)
    ensures var u := Proceed(cfg, s, t, site, at, ok, now);
            && Calls(u.log) == Calls(s.log) + AsCalls(Call(cfg, s, site, at, ok, now))
            && BeatingBefore(u.log) == BeatingBefore(s.log) && u.cancelled == s.cancelled
            && (at.Check? ==> Beating(u.log) == Beating(s.log))
  {
    hide Happen, Call, Next, Calls, BeatingBefore, Beating, Goto;
    var call := Call(cfg, s, site, at, ok, now);
    if call.Some? {
      OwnCall(cfg, s, site, at, ok, now);
      EventRecorded(s.log, call.value);
      HappenFrame(s, call.value);
    } else {
      assert Calls(s.log) + [] == Calls(s.log);
    }
    var pc := In(site, Next(cfg, s, t, ProcedureAt(site), at, ok, now));
    GotoHistory(Called(cfg, s, site, at, ok, now), t, pc);
    GotoCancelled(Called(cfg, s, site, at, ok, now), t, pc);
  }

  lemma GotoCancelled(s: State, t: Thread, pc: Pc)
    ensures Goto(s, t, pc).cancelled == s.cancelled
  {
  }

  lemma RetriesAppend(failed: seq<Failure>, f: Failure)
    ensures Retries(failed + [f]) == Retries(failed) + Attempt(f) + [Disconnect]
  {
    assert (failed + [f])[..|failed|] == failed;
  }

  lemma NoRetries(opening: seq<Event>)
    ensures opening + Retries([]) == opening
  {
    assert opening + [] == opening;
  }

  /** Up to the stop of the heartbeat. */
  lemma HaltStep(cfg: Config, s: State, t: Thread, site: Site, at: At, ok: bool, clock: int, now: int)
    requires (at.Check? || at.Halt?) && CountFits(cfg, site, at, 0)
    ensures var next := Next(cfg, s, t, ProcedureAt(site), at, ok, clock);
            && CountFits(cfg, site, next, 0)
            && SoFar(cfg, site, at, s.heartbeat, now, []) + AsCalls(Call(cfg, s, site, at, ok, clock))
               == SoFar(cfg, site, next, s.heartbeat, if at.Check? then clock else now, [])
  {
    if at.Halt? && ProcedureAt(site) == PowerCycle {
      assert [Stamp(now)] + [] == [Stamp(now)];
    }
  }

  /** Up to the first attempt. */
  lemma LeadStep(cfg: Config, s: State, t: Thread, site: Site, at: At, ok: bool, clock: int, beating: bool, now: int)
    requires at.Ask? || at.Cut? || at.HangUp? || at.Dwell? || at.Restore?
    requires CountFits(cfg, site, at, 0) && (at == Restore(true) ==> Owner(site) == Main)
    ensures var next := Next(cfg, s, t, ProcedureAt(site), at, ok, clock);
            && CountFits(cfg, site, next, 0)
            && SoFar(cfg, site, at, beating, now, []) + AsCalls(Call(cfg, s, site, at, ok, clock))
               == SoFar(cfg, site, next, beating, now, [])
  {
    hide Quieting, Owner;
    NoRetries(Opening(cfg, site, beating, now));
    hide Retries;
  }

  /** Before the attempts. */
  lemma LeadsOn(cfg: Config, s: State, t: Thread, site: Site, at: At, ok: bool, clock: int, now: int)
    returns (stamp: int)
    requires !Attempting(at) && Owner(site) == t && s.heartbeat == Beating(s.log)
    requires OnScript(cfg, s, site, at, now, [])
    ensures var u := Proceed(cfg, s, t, site, at, ok, clock);
            OnScript(cfg, u, site, Next(cfg, s, t, ProcedureAt(site), at, ok, clock), stamp, [])
  {
    stamp := if at.Check? then clock else now;
    CallRecorded(cfg, s, t, site, at, ok, clock);
    if at.Check? || at.Halt? {
      HaltStep(cfg, s, t, site, at, ok, clock, now);
    } else {
      LeadStep(cfg, s, t, site, at, ok, clock, BeatingBefore(s.log), now);
    }
    LeadsWhere(cfg, s, t, site, at, ok, clock);
    hide Proceed, Next, SoFar, Call, Calls, Beating, BeatingBefore, CountFits, Owner;
  }

  /** Where a step before the attempts does not lead, and where it leads when aborted. */
  lemma LeadsWhere(cfg: Config, s: State, t: Thread, site: Site, at: At, ok: bool, clock: int)
    requires !Attempting(at)
    ensures var next := Next(cfg, s, t, ProcedureAt(site), at, ok, clock);
            && !next.Check? && (next.Halt? ==> at.Check?)
            && (next == Restore(true) ==> at == next || (s.cancelled && t.Main?))
            && (next == Return(Cancelled) ==> at == Restore(true))
  {
  }

  /** An attempt has failed. */
  lemma FailStep(cfg: Config, site: Site, slot: nat, beating: bool, now: int, failed: seq<Failure>, f: Failure)
    returns (more: seq<Failure>)
    requires CountFits(cfg, site, Connect(slot), |failed|)
    ensures more == failed + [f]
    ensures var next := AfterFailure(ProcedureAt(site), slot);
            && CountFits(cfg, site, next, |more|)
            && SoFar(cfg, site, next, beating, now, more)
               == Opening(cfg, site, beating, now) + Retries(failed) + Attempt(f)
  {
    hide Attempt, Opening;
    more := failed + [f];
    assert more[..slot] == failed;
    if ProcedureAt(site).BringUp? || ProcedureAt(site).Reconnect? {
      assert failed == [];
      NoRetries(Opening(cfg, site, beating, now));
    }
  }

  /** The wait before an attempt. */
  lemma WaitStep(cfg: Config, s: State, t: Thread, site: Site, slot: nat, ok: bool, clock: int, failed: nat)
    requires CountFits(cfg, site, Wait(slot), failed) && Owner(site) == t
    ensures var next := Next(cfg, s, t, ProcedureAt(site), Wait(slot), ok, clock);
            && CountFits(cfg, site, next, failed)
            && (next == Wait(slot) || next == Connect(slot) || next == Return(Cancelled) || next == Return(Exhausted))
            && (next == Return(Cancelled) ==> s.cancelled && Owner(site) == Main)
  {
    hide ProcedureAt, Owner;
  }

  lemma SoFarWaiting(cfg: Config, site: Site, slot: nat, at: At, beating: bool, now: int, failed: seq<Failure>)
    requires at == Wait(slot) || at == Connect(slot) || at == Return(Cancelled) || at == Return(Exhausted)
    requires CountFits(cfg, site, at, |failed|)
    ensures SoFar(cfg, site, at, beating, now, failed) == Opening(cfg, site, beating, now) + Retries(failed)
  {
    hide SoFar, Opening, Retries, CountFits;
    match at
    case Wait(_) => SoFarAtWait(cfg, site, slot, beating, now, failed);
    case Connect(_) => SoFarAtConnect(cfg, site, slot, beating, now, failed);
    case Return(outcome) => SoFarAtReturn(cfg, site, outcome, beating, now, failed);
  }

  lemma SoFarAtWait(cfg: Config, site: Site, slot: nat, beating: bool, now: int, failed: seq<Failure>)
    requires CountFits(cfg, site, Wait(slot), |failed|)
    ensures SoFar(cfg, site, Wait(slot), beating, now, failed) == Opening(cfg, site, beating, now) + Retries(failed)
  {
  }

  lemma SoFarAtConnect(cfg: Config, site: Site, slot: nat, beating: bool, now: int, failed: seq<Failure>)
    requires CountFits(cfg, site, Connect(slot), |failed|)
    ensures SoFar(cfg, site, Connect(slot), beating, now, failed) == Opening(cfg, site, beating, now) + Retries(failed)
  {
  }

  lemma SoFarAtReturn(cfg: Config, site: Site, outcome: Outcome, beating: bool, now: int, failed: seq<Failure>)
    requires (outcome == Cancelled || outcome == Exhausted) && CountFits(cfg, site, Return(outcome), |failed|)
    ensures SoFar(cfg, site, Return(outcome), beating, now, failed)
            == Opening(cfg, site, beating, now) + Retries(failed)
  {
  }

  /** One step of an attempt that does not fail. */
  lemma TryStep(cfg: Config, s: State, t: Thread, site: Site, at: At, clock: int,
                beating: bool, now: int, failed: seq<Failure>)
    requires at.Connect? || at.Login? || at.Load? || at.Revive? || at.Register?
    requires CountFits(cfg, site, at, |failed|)
    ensures var next := Next(cfg, s, t, ProcedureAt(site), at, true, clock);
            && CountFits(cfg, site, next, |failed|)
            && SoFar(cfg, site, at, beating, now, failed) + AsCalls(Call(cfg, s, site, at, true, clock))
               == SoFar(cfg, site, next, beating, now, failed)
  {
    hide Opening, Retries;
    var before := Opening(cfg, site, beating, now) + Retries(failed);
    Assoc(before, [Dial(true)], [LoggedIn]);
    Assoc(before, [Dial(true), LoggedIn], [Loaded]);
    Assoc(before, Loading, [Registered]);
    Assoc(before, Loading + [Registered], [StartHeartbeat]);
    assert Loading + [Registered] + [StartHeartbeat] == Loading + [Registered, StartHeartbeat];
  }

  lemma CleanupStep(cfg: Config, site: Site, slot: nat, beating: bool, now: int, failed: seq<Failure>)
    requires CountFits(cfg, site, Cleanup(slot), |failed|)
    ensures CountFits(cfg, site, Wait(slot + 1), |failed|)
    ensures SoFar(cfg, site, Cleanup(slot), beating, now, failed) + [Disconnect]
            == SoFar(cfg, site, Wait(slot + 1), beating, now, failed)
  {
    hide Opening, Attempt;
    var opening := Opening(cfg, site, beating, now);
    assert failed == failed[..slot] + [failed[slot]];
    RetriesAppend(failed[..slot], failed[slot]);
    Assoc(opening, Retries(failed[..slot]), Attempt(failed[slot]));
    Assoc(opening, Retries(failed[..slot]) + Attempt(failed[slot]), [Disconnect]);
  }

  /** What a failed call adds to the attempt. */
  lemma BrokenOff(cfg: Config, s: State, t: Thread, site: Site, at: At, clock: int,
                  beating: bool, now: int, failed: seq<Failure>)
    returns (more: seq<Failure>)
    requires at.Connect? || at.Login? || at.Load?
    requires CountFits(cfg, site, at, |failed|)
    ensures var next := Next(cfg, s, t, ProcedureAt(site), at, false, clock);
            && CountFits(cfg, site, next, |more|)
            && SoFar(cfg, site, at, beating, now, failed) + AsCalls(Call(cfg, s, site, at, false, clock))
               == SoFar(cfg, site, next, beating, now, more)
  {
    var f := if at.Connect? then NoAnswer else if at.Login? then NoLogin else NoNodes;
    more := FailStep(cfg, site, at.slot, beating, now, failed, f);
    hide Opening, Retries;
    assert SoFar(cfg, site, at, beating, now, failed) + [] == SoFar(cfg, site, at, beating, now, failed);
  }

  lemma WaitsOn(cfg: Config, s: State, t: Thread, site: Site, slot: nat, ok: bool, clock: int,
                beating: bool, now: int, failed: seq<Failure>)
    requires CountFits(cfg, site, Wait(slot), |failed|) && Owner(site) == t
    ensures var next := Next(cfg, s, t, ProcedureAt(site), Wait(slot), ok, clock);
            && CountFits(cfg, site, next, |failed|)
            && SoFar(cfg, site, Wait(slot), beating, now, failed) + AsCalls(None)
               == SoFar(cfg, site, next, beating, now, failed)
  {
    WaitStep(cfg, s, t, site, slot, ok, clock, |failed|);
    var next := Next(cfg, s, t, ProcedureAt(site), Wait(slot), ok, clock);
    hide SoFar, CountFits, Next;
    SoFarWaiting(cfg, site, slot, Wait(slot), beating, now, failed);
    SoFarWaiting(cfg, site, slot, next, beating, now, failed);
    var so := SoFar(cfg, site, Wait(slot), beating, now, failed);
    assert so + [] == so;
  }

  lemma RefusedStep(cfg: Config, site: Site, beating: bool, now: int, failed: seq<Failure>)
    requires CountFits(cfg, site, Register, |failed|)
    ensures CountFits(cfg, site, Return(RegisterFailed), |failed|)
    ensures SoFar(cfg, site, Register, beating, now, failed) + AsCalls(None)
            == SoFar(cfg, site, Return(RegisterFailed), beating, now, failed)
  {
    hide Opening, Retries;
    var so := SoFar(cfg, site, Register, beating, now, failed);
    assert so + [] == so;
  }

  /** Where a step of the attempts leads. */
  lemma TriesWhere(cfg: Config, s: State, t: Thread, site: Site, at: At, ok: bool, clock: int)
    requires Attempting(at) && !at.Return? && Owner(site) == t
    ensures var next := Next(cfg, s, t, ProcedureAt(site), at, ok, clock);
            && !next.Check? && !next.Halt? && !next.Restore?
            && (next == Return(Cancelled) ==> s.cancelled && Owner(site) == Main)
            && (at.Cleanup? ==> next == Wait(at.slot + 1))
            && (at.Register? && !ok ==> next == Return(RegisterFailed))
    ensures at.Wait? || (at.Register? && !ok) ==> Call(cfg, s, site, at, ok, clock) == None
    ensures at.Cleanup? ==> Call(cfg, s, site, at, ok, clock) == Some(Disconnect)
    ensures at.Revive? ==>
              && Call(cfg, s, site, at, ok, clock) == Call(cfg, s, site, at, true, clock)
              && Next(cfg, s, t, ProcedureAt(site), at, ok, clock)
                 == Next(cfg, s, t, ProcedureAt(site), at, true, clock)
  {
    hide ProcedureAt, Owner;
  }

  /** A step of the attempts. */
  lemma AttemptStep(cfg: Config, s: State, t: Thread, site: Site, at: At, ok: bool, clock: int,
                    beating: bool, now: int, failed: seq<Failure>)
    returns (more: seq<Failure>)
    requires Attempting(at) && !at.Return? && CountFits(cfg, site, at, |failed|) && Owner(site) == t
    ensures var next := Next(cfg, s, t, ProcedureAt(site), at, ok, clock);
            && CountFits(cfg, site, next, |more|)
            && SoFar(cfg, site, at, beating, now, failed) + AsCalls(Call(cfg, s, site, at, ok, clock))
               == SoFar(cfg, site, next, beating, now, more)
  {
    hide SoFar, CountFits, Next, Call, AsCalls, Owner, ProcedureAt;
    TriesWhere(cfg, s, t, site, at, ok, clock);
    more := failed;
    if at.Wait? {
      WaitsOn(cfg, s, t, site, at.slot, ok, clock, beating, now, failed);
    } else if at.Cleanup? {
      CleanupStep(cfg, site, at.slot, beating, now, failed);
      OneCall();
    } else if ok || at.Revive? {
      TryStep(cfg, s, t, site, at, clock, beating, now, failed);
    } else if at.Register? {
      RefusedStep(cfg, site, beating, now, failed);
    } else {
      more := BrokenOff(cfg, s, t, site, at, clock, beating, now, failed);
    }
  }

  lemma OneCall()
    ensures AsCalls(Some(Disconnect)) == [Disconnect]
  {
  }

  lemma AttemptsOn(cfg: Config, s: State, t: Thread, site: Site, at: At, ok: bool, clock: int,
                   now: int, failed: seq<Failure>)
    returns (more: seq<Failure>)
    requires Attempting(at) && !at.Return? && Owner(site) == t
    requires OnScript(cfg, s, site, at, now, failed)
    ensures var u := Proceed(cfg, s, t, site, at, ok, clock);
            OnScript(cfg, u, site, Next(cfg, s, t, ProcedureAt(site), at, ok, clock), now, more)
  {
    CallRecorded(cfg, s, t, site, at, ok, clock);
    more := AttemptStep(cfg, s, t, site, at, ok, clock, BeatingBefore(s.log), now, failed);
    TriesWhere(cfg, s, t, site, at, ok, clock);
    hide Proceed, Next, SoFar, Call, Calls, Beating, BeatingBefore, CountFits, Owner;
  }

  // ---------- Every run ----------

  /** At most one event of no procedure. */
  predicate AddsAside(l: Log, k: Log) {
    k == l || (k.Then? && k.before == l && Aside(k.event))
  }

  lemma IdleQuiet(cfg: Config, s: State, t: Thread, x: Thread, ok: bool, now: int)
    requires PcOf(s, x) == Idle && x != t
    ensures var u := IdleStep(cfg, s, x, ok, now);
            PcOf(u, t) == PcOf(s, t) && u.cancelled == s.cancelled && AddsAside(s.log, u.log)
  {
    hide IsStale, AfterUnavailable;
  }

  /** While one thread is inside a procedure, another cannot enter. */
  lemma Locked(cfg: Config, s: State, t: Thread, x: Thread)
    requires Invariant(cfg, s) && PcOf(s, t).In? && x != t
    ensures !PcOf(s, x).In? && PcOf(s, x) != Closing
    ensures PcOf(s, x).Want? ==> s.resetMu.Some?
    ensures PcOf(s, x) == Dormant ==> !x.Main?
  {
    OnlyOneInside(cfg, s, t, x);
    MutexInside(cfg, s, t);
    hide Coherent, Inner, Inside, HealthReason;
  }

  lemma AnnounceQuiet(cfg: Config, s: State, t: Thread, ok: bool, now: int)
    requires s.health.Announce? && t != Health
    ensures var u := Move(cfg, s, Health, ok, now);
            PcOf(u, t) == PcOf(s, t) && u.cancelled == s.cancelled && AddsAside(s.log, u.log)
  {
    hide Happen, AfterUnavailable;
    HappenFrame(s, if s.health.available then Available else Unavailable);
  }

  lemma SilentMove(cfg: Config, s: State, t: Thread, x: Thread, ok: bool, now: int)
    requires x != t && !PcOf(s, x).In? && !PcOf(s, x).Idle? && !PcOf(s, x).Announce? && PcOf(s, x) != Closing
    requires PcOf(s, x).Want? ==> s.resetMu.Some?
    requires PcOf(s, x) == Dormant ==> !x.Main?
    ensures var u := Move(cfg, s, x, ok, now);
            (PcOf(s, x) != Joining || x == Main ==> PcOf(u, t) == PcOf(s, t)) && u.cancelled == s.cancelled
            && u.log == s.log
  {
    hide IdleStep, AfterUnavailable, Entered, Unlock, Proceed, Happen;
  }

  lemma MoveQuiet(cfg: Config, s: State, t: Thread, x: Thread, ok: bool, now: int)
    requires Invariant(cfg, s) && PcOf(s, t).In? && x != t
    ensures var u := Move(cfg, s, x, ok, now);
            PcOf(u, t) == PcOf(s, t) && u.cancelled == s.cancelled && AddsAside(s.log, u.log)
  {
    Locked(cfg, s, t, x);
    WhoseStep(cfg, s, x);
    hide Invariant, Move, IdleStep;
    if PcOf(s, x) == Idle {
      MoveIdle(cfg, s, x, ok, now);
      IdleQuiet(cfg, s, t, x, ok, now);
    } else if PcOf(s, x).Announce? {
      AnnounceQuiet(cfg, s, t, ok, now);
    } else {
      SilentMove(cfg, s, t, x, ok, now);
    }
  }

  lemma MoveIdle(cfg: Config, s: State, x: Thread, ok: bool, now: int)
    requires PcOf(s, x) == Idle
    ensures Move(cfg, s, x, ok, now) == IdleStep(cfg, s, x, ok, now)
  {
    hide IdleStep;
  }

  /** Whatever another thread or the environment does, a visit has made the same calls. */
  lemma OthersAside(cfg: Config, s: State, t: Thread, a: Action)
    requires Invariant(cfg, s) && PcOf(s, t).In? && !(a.Act? && a.t == t)
    ensures var u := Step(cfg, s, a);
            PcOf(u, t) == PcOf(s, t) && (s.cancelled ==> u.cancelled) && AddsAside(s.log, u.log)
  {
    hide Invariant, Move;
    if a.Act? {
      MoveQuiet(cfg, s, t, a.t, a.ok, a.now);
    }
  }

  lemma AsideKeepsScript(cfg: Config, s: State, u: State, site: Site, at: At, now: int, failed: seq<Failure>)
    requires OnScript(cfg, s, site, at, now, failed) && AddsAside(s.log, u.log) && (s.cancelled ==> u.cancelled)
    ensures OnScript(cfg, u, site, at, now, failed)
  {
    hide SoFar, CountFits, Owner;
    if u.log != s.log {
      AsideRecorded(s.log, u.log.event);
      hide Calls, BeatingBefore, Beating;
    }
  }

  lemma AsideRecorded(l: Log, e: Event)
    requires Aside(e)
    ensures Calls(Then(l, e)) == Calls(l) && BeatingBefore(Then(l, e)) == BeatingBefore(l)
    ensures Beating(Then(l, e)) == Beating(l)
  {
    assert Calls(l) + [] == Calls(l);
  }

  /** A visit starts at the beginning. */
  lemma EntersOnScript(cfg: Config, s: State, u: State, site: Site)
    requires u.log == Then(s.log, Enter(site))
    ensures OnScript(cfg, u, site, First(ProcedureAt(site)), 0, [])
  {
    assert Retries([]) == [];
  }

  /** Where another thread finds itself after a move of x: where it was, or launched by Start. */
  predicate Stays(before: Pc, after: Pc) {
    after == before || (before == Dormant && after == Idle)
  }

  lemma OthersStay(cfg: Config, s: State, t: Thread, a: Action)
    requires Invariant(cfg, s) && !(a.Act? && a.t == t)
    ensures Stays(PcOf(s, t), PcOf(Step(cfg, s, a), t))
  {
    hide Happen, Move, Invariant;
    if a.Act? {
      MoveStays(cfg, s, t, a.t, a.ok, a.now);
    } else {
      LossStays(s, t);
    }
  }

  lemma LossStays(s: State, t: Thread)
    ensures PcOf(Happen(s, Lost), t) == PcOf(s, t)
  {
  }

  lemma MoveStays(cfg: Config, s: State, t: Thread, x: Thread, ok: bool, now: int)
    requires Invariant(cfg, s) && x != t
    ensures Stays(PcOf(s, t), PcOf(Move(cfg, s, x, ok, now), t))
  {
    WhoseStep(cfg, s, x);
    hide IdleStep, Unlock, Proceed, Entered, AfterUnavailable, Invariant;
    match PcOf(s, x)
    case Idle => IdlePc(cfg, s, t, x, ok, now);
    case Want(site) => EnteredPc(s, t, x, site);
    case In(site, at) =>
      if at.Return? {
        InsideFacts(cfg, s, x);
        UnlockPc(cfg, s, t, x, site, at.outcome);
      } else {
        MoveIn(cfg, s, x, site, at, ok, now);
        ProceedPc(cfg, s, t, x, site, at, ok, now);
      }
    case Announce(available) => AnnouncePc(cfg, s, t, x, ok, now);
    case _ => EndsPc(cfg, s, t, x, ok, now);
  }

  lemma AnnouncePc(cfg: Config, s: State, t: Thread, x: Thread, ok: bool, now: int)
    requires x != t && PcOf(s, x).Announce?
    ensures PcOf(Move(cfg, s, x, ok, now), t) == PcOf(s, t)
  {
    hide AfterUnavailable, Happen;
    HappenFrame(s, if PcOf(s, x).available then Available else Unavailable);
  }

  lemma EndsPc(cfg: Config, s: State, t: Thread, x: Thread, ok: bool, now: int)
    requires x != t && (PcOf(s, x).Joining? || PcOf(s, x).Closing? ==> x.Main?)
    requires !PcOf(s, x).Idle? && !PcOf(s, x).Want? && !PcOf(s, x).In? && !PcOf(s, x).Announce?
    ensures PcOf(Move(cfg, s, x, ok, now), t) == PcOf(s, t)
  {
    hide Happen;
    HappenFrame(s.(main := Ended), Disconnect);
    HappenFrame(s.(lastContact := now, main := In(StartUp, Connect(0))), Enter(StartUp));
  }

  lemma IdlePc(cfg: Config, s: State, t: Thread, x: Thread, ok: bool, now: int)
    requires x != t
    ensures PcOf(IdleStep(cfg, s, x, ok, now), t) == PcOf(s, t)
  {
    hide AfterUnavailable, IsStale;
  }

  lemma EnteredPc(s: State, t: Thread, x: Thread, site: Site)
    requires x != t
    ensures PcOf(Entered(s, x, site), t) == PcOf(s, t)
  {
    hide First, ProcedureAt;
  }

  lemma UnlockPc(cfg: Config, s: State, t: Thread, x: Thread, site: Site, outcome: Outcome)
    requires x != t && Owner(site) == x && (Starting(site) ==> LoopsDormant(s))
    ensures Stays(PcOf(s, t), PcOf(Unlock(cfg, s, x, site, outcome), t))
  {
    hide After;
  }

  lemma ProceedPc(cfg: Config, s: State, t: Thread, x: Thread, site: Site, at: At, ok: bool, now: int)
    requires x != t
    ensures PcOf(Proceed(cfg, s, x, site, at, ok, now), t) == PcOf(s, t)
  {
    hide Called, Next, Offline, Stale, SoftFailed, Inside;
    CalledFrame(cfg, s, site, at, ok, now);
  }

  /** A thread gets inside only by its own move. */
  lemma GetsInside(cfg: Config, s: State, t: Thread, a: Action)
    requires Invariant(cfg, s) && !PcOf(s, t).In? && PcOf(Step(cfg, s, a), t).In?
    ensures var u := Step(cfg, s, a);
            OnScript(cfg, u, PcOf(u, t).site, PcOf(u, t).at, 0, [])
  {
    if !(a.Act? && a.t == t) {
      OthersStay(cfg, s, t, a);
    } else {
      var site := GoesInside(cfg, s, t, a.ok, a.now);
      hide Step, OnScript, Move;
      EntersOnScript(cfg, s, Step(cfg, s, a), site);
    }
  }

  lemma IdleStaysOut(cfg: Config, s: State, t: Thread, ok: bool, now: int)
    ensures PcOf(s, t) == Idle ==> !PcOf(IdleStep(cfg, s, t, ok, now), t).In?
  {
    hide IsStale;
  }

  lemma FirstPlace()
    ensures First(ProcedureAt(StartUp)) == Connect(0)
  {
  }

  lemma GoesInside(cfg: Config, s: State, t: Thread, ok: bool, now: int) returns (site: Site)
    requires !PcOf(s, t).In? && PcOf(Move(cfg, s, t, ok, now), t).In?
    ensures var u := Move(cfg, s, t, ok, now);
            PcOf(u, t) == In(site, First(ProcedureAt(site))) && u.log == Then(s.log, Enter(site))
  {
    hide IdleStep, Unlock, Proceed, First, ProcedureAt;
    FirstPlace();
    site := if PcOf(s, t).Want? then PcOf(s, t).site else StartUp;
    if PcOf(s, t) == Idle {
      IdleStaysOut(cfg, s, t, ok, now);
    }
  }

  /** Every visit of every run goes by the script, from its first call to its last. */
  lemma {:induction false} AlwaysScripted(cfg: Config, actions: seq<Action>, t: Thread)
    ensures Scripted(cfg, Execute(cfg, actions), t)
  {
    if actions != [] {
      var before, a := actions[..|actions| - 1], actions[|actions| - 1];
      AlwaysScripted(cfg, before, t);
      RunSafety(cfg, before);
      hide Execute;
      StepKeepsScript(cfg, Execute(cfg, before), t, a);
    }
  }

  lemma StepKeepsScript(cfg: Config, s: State, t: Thread, a: Action)
    requires Invariant(cfg, s) && Scripted(cfg, s, t)
    ensures Scripted(cfg, Step(cfg, s, a), t)
  {
    var u := Step(cfg, s, a);
    if PcOf(u, t).In? {
      hide Invariant, Step, OnScript;
      if !PcOf(s, t).In? {
        GetsInside(cfg, s, t, a);
      } else {
        var now, failed :| OnScript(cfg, s, PcOf(s, t).site, PcOf(s, t).at, now, failed);
        if a.Act? && a.t == t {
          OwnKeepsScript(cfg, s, t, a.ok, a.now, now, failed);
        } else {
          OthersAside(cfg, s, t, a);
          AsideKeepsScript(cfg, s, u, PcOf(s, t).site, PcOf(s, t).at, now, failed);
        }
      }
    }
  }

  lemma OwnKeepsScript(cfg: Config, s: State, t: Thread, ok: bool, clock: int, now: int, failed: seq<Failure>)
    requires Invariant(cfg, s) && PcOf(s, t).In? && OnScript(cfg, s, PcOf(s, t).site, PcOf(s, t).at, now, failed)
    requires PcOf(Move(cfg, s, t, ok, clock), t).In?
    ensures Scripted(cfg, Move(cfg, s, t, ok, clock), t)
  {
    InsideFacts(cfg, s, t);
    var In(site, at) := PcOf(s, t);
    if at.Return? {
      LeavesInside(cfg, s, t, site, at.outcome, ok, clock);
    } else {
      hide Invariant, Move, Proceed, Next, Coherent, Inside, Inner, HealthReason;
      MoveIn(cfg, s, t, site, at, ok, clock);
      ProceedPcs(cfg, s, t, site, at, ok, clock);
      PcAfter(s, t, In(site, Next(cfg, s, t, ProcedureAt(site), at, ok, clock)));
      if Attempting(at) {
        var more := AttemptsOn(cfg, s, t, site, at, ok, clock, now, failed);
      } else {
        assert failed == [];
        var stamp := LeadsOn(cfg, s, t, site, at, ok, clock, now);
      }
    }
  }

  lemma PcAfter(s: State, t: Thread, pc: Pc)
    ensures PcOf(Goto(s, t, pc), t) == pc
  {
  }

  lemma LeavesInside(cfg: Config, s: State, t: Thread, site: Site, outcome: Outcome, ok: bool, now: int)
    requires PcOf(s, t) == In(site, Return(outcome))
    ensures !PcOf(Move(cfg, s, t, ok, now), t).In?
  {
    hide Happen;
  }

  // ---------- The whole history ----------

  /** A step records at most one event. */
  lemma LogGrows(cfg: Config, s: State, a: Action)
    ensures var u := Step(cfg, s, a); u.log == s.log || (u.log.Then? && u.log.before == s.log)
  {
    if a.Act? {
      MoveGrows(cfg, s, a.t, a.ok, a.now);
    }
  }

  /** What a move from outside the procedures records. */
  predicate Outside(e: Event) {
    e.Enter? || e.Available? || e.Unavailable? || e.Disconnect? || e.Tick?
  }

  lemma OutsideGrows(cfg: Config, s: State, t: Thread, ok: bool, now: int)
    requires !PcOf(s, t).In? && !PcOf(s, t).Idle?
    ensures var u := Move(cfg, s, t, ok, now);
            u.log == s.log || (u.log.Then? && u.log.before == s.log && Outside(u.log.event))
  {
    hide AfterUnavailable, First, ProcedureAt, Entered, Happen, Goto;
    HappenFrame(s, if PcOf(s, t).Announce? && PcOf(s, t).available then Available else Unavailable);
    HappenFrame(s.(main := Ended), Disconnect);
    HappenFrame(s.(lastContact := now, main := In(StartUp, Connect(0))), Enter(StartUp));
    if PcOf(s, t).Announce? {
      AnnounceLog(cfg, s, t, PcOf(s, t).available, ok, now);
    } else if PcOf(s, t) == Restored {
      GotoHistory(s, t, Idle);
      GotoHistory(s.(wedged := false), t, Announce(true));
    } else if PcOf(s, t).Want? {
      EnteredLog(s, t, PcOf(s, t).site);
    }
  }

  lemma AnnounceLog(cfg: Config, s: State, t: Thread, available: bool, ok: bool, now: int)
    requires PcOf(s, t) == Announce(available)
    ensures Move(cfg, s, t, ok, now).log == Then(s.log, if available then Available else Unavailable)
  {
    hide AfterUnavailable, Happen, Goto;
    var e := if available then Available else Unavailable;
    HappenFrame(s, e);
    GotoHistory(Happen(s, e), t, if available then Idle else AfterUnavailable(cfg));
  }

  lemma EnteredLog(s: State, t: Thread, site: Site)
    ensures Entered(s, t, site).log == Then(s.log, Enter(site))
  {
    hide First, ProcedureAt;
  }

  lemma MoveGrows(cfg: Config, s: State, t: Thread, ok: bool, now: int)
    ensures var u := Move(cfg, s, t, ok, now); u.log == s.log || (u.log.Then? && u.log.before == s.log)
  {
    if !PcOf(s, t).In? && !PcOf(s, t).Idle? {
      OutsideGrows(cfg, s, t, ok, now);
    } else {
      hide IdleStep, Unlock, Proceed;
      if PcOf(s, t).Idle? {
        IdleGrows(cfg, s, t, ok, now);
      } else {
        InsideGrows(cfg, s, t, PcOf(s, t).site, PcOf(s, t).at, ok, now);
      }
    }
  }

  lemma InsideGrows(cfg: Config, s: State, t: Thread, site: Site, at: At, ok: bool, now: int)
    requires PcOf(s, t) == In(site, at)
    ensures var u := Move(cfg, s, t, ok, now);
            var call := Call(cfg, s, site, at, ok, now);
            u.log == if at.Return? then Then(s.log, Leave(site, at.outcome))
                     else if call.Some? then Then(s.log, call.value) else s.log
  {
    hide Unlock, Proceed, Call;
    if at.Return? {
      UnlockGrows(cfg, s, t, site, at.outcome);
    } else {
      MoveIn(cfg, s, t, site, at, ok, now);
      ProceedGrows(cfg, s, t, site, at, ok, now);
    }
  }

  lemma IdleGrows(cfg: Config, s: State, t: Thread, ok: bool, now: int)
    ensures var u := IdleStep(cfg, s, t, ok, now);
            u.log == s.log || (u.log.Then? && u.log.before == s.log && u.log.event.Tick?)
  {
    hide IsStale, AfterUnavailable;
  }

  lemma UnlockGrows(cfg: Config, s: State, t: Thread, site: Site, outcome: Outcome)
    ensures Unlock(cfg, s, t, site, outcome).log == Then(s.log, Leave(site, outcome))
  {
    hide After;
  }

  lemma ProceedGrows(cfg: Config, s: State, t: Thread, site: Site, at: At, ok: bool, now: int)
    ensures var u := Proceed(cfg, s, t, site, at, ok, now);
            var call := Call(cfg, s, site, at, ok, now);
            u.log == if call.Some? then Then(s.log, call.value) else s.log
  {
    hide Called, Call, Next, Offline, Stale, SoftFailed, Inside;
    CalledFrame(cfg, s, site, at, ok, now);
    GotoHistory(Called(cfg, s, site, at, ok, now), t, In(site, Next(cfg, s, t, ProcedureAt(site), at, ok, now)));
  }

  lemma ProceedOwnPc(cfg: Config, s: State, t: Thread, site: Site, at: At, ok: bool, now: int)
    ensures PcOf(Proceed(cfg, s, t, site, at, ok, now), t)
            == In(site, Next(cfg, s, t, ProcedureAt(site), at, ok, now))
  {
    hide Called, Next;
  }

  /** The moment at which an event of a history happened. */
  lemma {:induction false} MomentOf(cfg: Config, actions: seq<Action>, b: Log, e: Event) returns (k: nat)
    requires Continued(Execute(cfg, actions).log, b, e)
    ensures k < |actions| && Execute(cfg, actions[..k]).log == b
    ensures Step(cfg, Execute(cfg, actions[..k]), actions[k]).log == Then(b, e)
  {
    var n := |actions| - 1;
    var before := Execute(cfg, actions[..n]);
    LogGrows(cfg, before, actions[n]);
    hide Step;
    if before.log == b && Execute(cfg, actions).log == Then(b, e) {
      k := n;
    } else {
      k := MomentOf(cfg, actions[..n], b, e);
      assert actions[..n][..k] == actions[..k];
    }
  }

  /** A dial or a return is the move of the thread at that place. */
  lemma WhoseCall(cfg: Config, s: State, a: Action, e: Event)
    requires Step(cfg, s, a).log == Then(s.log, e) && (e.Dial? || e.Leave?)
    ensures a.Act? && PcOf(s, a.t).In?
    ensures e.Dial? ==> PcOf(s, a.t).at.Connect?
    ensures e.Leave? ==> PcOf(s, a.t) == In(e.site, Return(e.outcome))
  {
    hide Move, Call;
    Longer(s.log, e);
    if a.Act? {
      if PcOf(s, a.t).In? {
        InsideGrows(cfg, s, a.t, PcOf(s, a.t).site, PcOf(s, a.t).at, a.ok, a.now);
        CallKind(cfg, s, PcOf(s, a.t).site, PcOf(s, a.t).at, a.ok, a.now);
      } else if PcOf(s, a.t).Idle? {
        hide IdleStep;
        MoveIdle(cfg, s, a.t, a.ok, a.now);
        IdleGrows(cfg, s, a.t, a.ok, a.now);
      } else {
        OutsideGrows(cfg, s, a.t, a.ok, a.now);
      }
    }
  }

  lemma Longer(l: Log, e: Event)
    ensures Then(l, e) != l
  {
    assert l < Then(l, e);
  }

  lemma CallKind(cfg: Config, s: State, site: Site, at: At, ok: bool, now: int)
    ensures var call := Call(cfg, s, site, at, ok, now);
            call.Some? ==> !call.value.Leave? && (call.value.Dial? ==> at.Connect?)
  {
  }

  /** In every run, every procedure that has been left had made exactly the calls of its script: which
      calls, in which order, after how many failed attempts, and with which outcome. */
  lemma LeftByTheScript(cfg: Config, actions: seq<Action>, b: Log, site: Site, outcome: Outcome)
    requires Continued(Execute(cfg, actions).log, b, Leave(site, outcome))
    ensures ByTheScript(cfg, site, outcome, b)
  {
    var k := MomentOf(cfg, actions, b, Leave(site, outcome));
    var s := Execute(cfg, actions[..k]);
    hide Execute, Step, OnScript;
    WhoseCall(cfg, s, actions[k], Leave(site, outcome));
    AlwaysScripted(cfg, actions[..k], actions[k].t);
    var now, failed :| OnScript(cfg, s, site, Return(outcome), now, failed);
    AtTheEnd(cfg, s, site, outcome, now, failed);
  }

  lemma AtTheEnd(cfg: Config, s: State, site: Site, outcome: Outcome, now: int, failed: seq<Failure>)
    requires OnScript(cfg, s, site, Return(outcome), now, failed)
    ensures Performed(cfg, site, outcome, s.log, now, failed)
  {
    hide Script, Possible, Calls, BeatingBefore;
  }

  // ---------- The reboot request ----------

  /** How often the gateway is asked to reboot. */
  function Requests(calls: seq<Event>): nat {
    if calls == [] then 0
    else Requests(calls[..|calls| - 1]) + if calls[|calls| - 1] == RebootRequest then 1 else 0
  }

  lemma {:induction false} RequestsAppend(a: seq<Event>, b: seq<Event>)
    ensures Requests(a + b) == Requests(a) + Requests(b)
  {
    if b == [] {
      assert a + b == a;
    } else {
      assert (a + b)[..|a + b| - 1] == a + b[..|b| - 1];
      RequestsAppend(a, b[..|b| - 1]);
    }
  }

  lemma {:induction false} RetriesAskNothing(failed: seq<Failure>)
    ensures Requests(Retries(failed)) == 0
  {
    if failed != [] {
      var rest, last := failed[..|failed| - 1], failed[|failed| - 1];
      RetriesAskNothing(rest);
      AttemptAsksNothing(last);
      RequestsAppend(Retries(rest) + Attempt(last), [Disconnect]);
      RequestsAppend(Retries(rest), Attempt(last));
    }
  }

  lemma AttemptAsksNothing(f: Failure)
    ensures Requests(Attempt(f)) == 0 && Requests([Disconnect]) == 0
  {
    assert [Dial(true), LoggedIn][..1] == [Dial(true)];
  }

  lemma EndingsAskNothing(beating: bool)
    ensures Requests(Loading) == 0 && Requests(Loading + [Registered, StartHeartbeat]) == 0
    ensures Requests(Quieting(beating)) == 0
  {
    var all := Loading + [Registered, StartHeartbeat];
    assert all[..4] == Loading + [Registered] && (Loading + [Registered])[..3] == Loading;
    assert Loading[..2] == [Dial(true), LoggedIn] && [Dial(true), LoggedIn][..1] == [Dial(true)];
  }

  lemma SingleCalls(cfg: Config, site: Site, now: int)
    ensures Requests([RebootRequest]) == 1 && Requests([Disconnect]) == 0 && Requests([Stamp(now)]) == 0
    ensures Requests([Publish(site, cfg.topic, false, false)]) == 0
    ensures Requests([Disconnect, Publish(site, cfg.topic, true, false)]) == 0
  {
    assert [Disconnect, Publish(site, cfg.topic, true, false)][..1] == [Disconnect];
  }

  lemma OpeningAsks(cfg: Config, site: Site, beating: bool, now: int)
    ensures Requests(Opening(cfg, site, beating, now)) == if ProcedureAt(site) == Reboot then 1 else 0
  {
    hide Quieting, Requests, ProcedureAt;
    EndingsAskNothing(beating);
    SingleCalls(cfg, site, now);
    NothingAsked();
    var quieting := Quieting(beating);
    match ProcedureAt(site)
    case Reboot =>
      RequestsAppend(quieting, [RebootRequest]);
      RequestsAppend(quieting + [RebootRequest], [Disconnect]);
    case PowerCycle =>
      var off, on := Publish(site, cfg.topic, false, false), Publish(site, cfg.topic, true, false);
      RequestsAppend([Stamp(now)], quieting);
      RequestsAppend([Stamp(now)] + quieting, [off]);
      RequestsAppend([Stamp(now)] + quieting + [off], [Disconnect, on]);
    case _ =>
      RequestsAppend(quieting, [Disconnect]);
  }

  /** In every run, whenever a procedure dials or returns, the gateway has been asked to reboot exactly
      once if the procedure is a reboot, and otherwise not at all. */
  lemma RebootAsksOnce(cfg: Config, actions: seq<Action>, b: Log, e: Event)
    requires Continued(Execute(cfg, actions).log, b, e) && (e.Dial? || e.Leave?)
    ensures Inside(b).Some?
    ensures Requests(Calls(b)) == if ProcedureAt(Inside(b).value) == Reboot then 1 else 0
  {
    var k := MomentOf(cfg, actions, b, e);
    var s := Execute(cfg, actions[..k]);
    hide Execute, Step, OnScript;
    WhoseCall(cfg, s, actions[k], e);
    AlwaysScripted(cfg, actions[..k], actions[k].t);
    RunSafety(cfg, actions[..k]);
    InsideFacts(cfg, s, actions[k].t);
    var In(site, at) := PcOf(s, actions[k].t);
    var now, failed :| OnScript(cfg, s, site, at, now, failed);
    AsksSoFar(cfg, s, site, at, now, failed);
  }

  lemma AsksSoFar(cfg: Config, s: State, site: Site, at: At, now: int, failed: seq<Failure>)
    requires OnScript(cfg, s, site, at, now, failed) && (at.Connect? || at.Return?)
    ensures Requests(Calls(s.log)) == if ProcedureAt(site) == Reboot then 1 else 0
  {
    ScriptAsks(cfg, site, at, BeatingBefore(s.log), now, failed);
    hide Requests, Calls, BeatingBefore, SoFar, CountFits;
  }

  lemma ScriptAsks(cfg: Config, site: Site, at: At, beating: bool, now: int, failed: seq<Failure>)
    requires CountFits(cfg, site, at, |failed|) && (at.Connect? || at.Return?)
    ensures Requests(SoFar(cfg, site, at, beating, now, failed)) == if ProcedureAt(site) == Reboot then 1 else 0
  {
    hide Opening, Retries, Attempt, Requests, Quieting, Owner;
    var opening := Opening(cfg, site, beating, now);
    OpeningAsks(cfg, site, beating, now);
    RetriesAskNothing(failed);
    EndingsAskNothing(beating);
    NothingAsked();
    RequestsAppend(opening, Retries(failed));
    RequestsAppend(opening + Retries(failed), Loading);
    RequestsAppend(opening + Retries(failed), Loading + [Registered, StartHeartbeat]);
    if at == Return(Unreachable) {
      AttemptAsksNothing(failed[0]);
      RequestsAppend(opening, Attempt(failed[0]));
    }
  }

  /** A visit that went by the script has asked for one reboot if it was one. */
  lemma ScriptedAsks(cfg: Config, site: Site, outcome: Outcome, l: Log)
    requires ByTheScript(cfg, site, outcome, l)
    ensures Requests(Calls(l)) == if ProcedureAt(site) == Reboot then 1 else 0
  {
    var now, failed :| Performed(cfg, site, outcome, l, now, failed);
    ScriptAsks(cfg, site, Return(outcome), BeatingBefore(l), now, failed);
    hide Requests, Calls, BeatingBefore, Script, Possible;
  }

  lemma NothingAsked()
    ensures Requests([]) == 0
  {
  }

  // ---------- What one thread has done last ----------

  /** The last procedure a thread has returned from, and its outcome. */
  function LastReturn(l: Log, t: Thread): Option<(Site, Outcome)> {
    match l
    case Empty => None
    case Then(b, Leave(site, outcome)) => if Owner(site) == t then Some((site, outcome)) else LastReturn(b, t)
    case Then(b, _) => LastReturn(b, t)
  }

  /** The history at that return. */
  function LastVisit(l: Log, t: Thread): Log {
    match l
    case Empty => Empty
    case Then(b, Leave(site, _)) => if Owner(site) == t then b else LastVisit(b, t)
    case Then(b, _) => LastVisit(b, t)
  }

  lemma {:induction false} LastVisitContinued(l: Log, t: Thread)
    requires LastReturn(l, t).Some?
    ensures Continued(l, LastVisit(l, t), Leave(LastReturn(l, t).value.0, LastReturn(l, t).value.1))
  {
    if !(l.event.Leave? && Owner(l.event.site) == t) {
      LastVisitContinued(l.before, t);
    }
  }

  /** The last procedure of a thread went by the script. */
  ghost predicate LastScripted(cfg: Config, l: Log, t: Thread) {
    LastReturn(l, t).Some? ==> ByTheScript(cfg, LastReturn(l, t).value.0, LastReturn(l, t).value.1, LastVisit(l, t))
  }

  lemma LastByTheScript(cfg: Config, actions: seq<Action>, t: Thread)
    ensures LastScripted(cfg, Execute(cfg, actions).log, t)
  {
    hide ByTheScript, Execute;
    var l := Execute(cfg, actions).log;
    if LastReturn(l, t).Some? {
      LastVisitContinued(l, t);
      LeftByTheScript(cfg, actions, LastVisit(l, t), LastReturn(l, t).value.0, LastReturn(l, t).value.1);
    }
  }
}
