/** The history of the recovery supervisor (app/app.go): what was called on its seams, in order, and
    which continuations of a history are lawful. */
module RunLog {
  import opened Bytes

  /** One place of the program that runs a recovery procedure. */
  datatype Site =
    | StartUp        // connectAndLoad, Register and heartbeat in Start, before any loop runs
    | StartCycle     // doPowerCycle in Start
    | StartReboot    // doReboot in Start
    | TickReconnect  // doReconnect in checkHealth
    | TickReboot     // doReboot in checkHealth
    | TickCycle      // doPowerCycle in escalateToPowerCycle
    | TimedCycle     // doPowerCycle in runPeriodicRestart
    | TimedReboot    // doReboot in runPeriodicRestart
    | Shutdown       // the critical section of Stop

  datatype Procedure = BringUp | Reconnect | Reboot | PowerCycle | Halting

  function ProcedureAt(site: Site): Procedure {
    match site
    case StartUp => BringUp
    case StartCycle | TickCycle | TimedCycle => PowerCycle
    case StartReboot | TickReboot | TimedReboot => Reboot
    case TickReconnect => Reconnect
    case Shutdown => Halting
  }

  /** What a procedure returns: nil, the errors its callers tell apart, and the other errors. */
  datatype Outcome = Recovered | Debounced | Cancelled | Exhausted | Unreachable | RegisterFailed | Refused | Halted

  datatype Event =
    | Enter(site: Site)
    | Leave(site: Site, outcome: Outcome)
    | StopHeartbeat                       // of a running heartbeat; otherwise the call does nothing
    | StartHeartbeat
    | RebootRequest
    | Dial(ok: bool)                      // Connect
    | LoggedIn
    | Loaded
    | Registered
    | Disconnect
    | Lost                                // the connection went down by itself
    | Stamp(now: int)                     // lastPowerCycle
    | Publish(site: Site, topic: string, on: bool, retained: bool)
    | Tick(stale: bool)                   // a health check read the clock and the last contact
    | Unavailable                         // MarkAllUnavailable
    | Available                           // MarkAllAvailable

  datatype Log = Empty | Then(before: Log, event: Event)

  datatype Config = Config(
    topic: string, wired: bool, restartOnError: bool, periodicPowerCycle: bool,
    healthInterval: int, periodicLoop: bool)

  /** Length of rebootBackoffSchedule. */
  const SLOTS: nat := 7

  /** powerCycleMinGap in nanoseconds. */
  const GAP: int := 900_000_000_000

  function Slots(p: Procedure): nat {
    match p
    case Reboot | PowerCycle => SLOTS
    case BringUp | Reconnect => 1
    case Halting => 0
  }

  // ---------- What a history says ----------

  predicate PlugOff(l: Log) {
    match l
    case Empty => false
    case Then(b, Publish(_, _, on, _)) => !on
    case Then(b, _) => PlugOff(b)
  }

  predicate Beating(l: Log) {
    match l
    case Empty => false
    case Then(b, StartHeartbeat) => true
    case Then(b, StopHeartbeat) => false
    case Then(b, _) => Beating(b)
  }

  predicate Up(l: Log) {
    match l
    case Empty => false
    case Then(b, Dial(ok)) => ok || Up(b)
    case Then(b, Disconnect) => false
    case Then(b, Lost) => false
    case Then(b, _) => Up(b)
  }

  predicate Offline(l: Log) {
    match l
    case Empty => false
    case Then(b, Unavailable) => true
    case Then(b, Available) => false
    case Then(b, _) => Offline(b)
  }

  /** The procedure that has been entered and not left. */
  function Inside(l: Log): Option<Site> {
    match l
    case Empty => None
    case Then(b, Enter(site)) => Some(site)
    case Then(b, Leave(_, _)) => None
    case Then(b, _) => Inside(b)
  }

  /** Connects attempted since the last Enter. */
  function Attempts(l: Log): nat {
    match l
    case Empty => 0
    case Then(b, Enter(_)) => 0
    case Then(b, Dial(_)) => Attempts(b) + 1
    case Then(b, _) => Attempts(b)
  }

  /** How far the bring-up has come since it last started over. */
  function Progress(l: Log): nat {
    match l
    case Empty => 0
    case Then(b, Enter(_)) => 0
    case Then(b, Disconnect) => 0
    case Then(b, Dial(ok)) => if ok then 1 else 0
    case Then(b, LoggedIn) => 2
    case Then(b, Loaded) => 3
    case Then(b, Registered) => 4
    case Then(b, StartHeartbeat) => 5
    case Then(b, _) => Progress(b)
  }

  function LastStamp(l: Log): Option<int> {
    match l
    case Empty => None
    case Then(b, Stamp(now)) => Some(now)
    case Then(b, _) => LastStamp(b)
  }

  /** The last power cycle has been stamped but has not cut the power yet. */
  predicate Stamped(l: Log) {
    match l
    case Empty => false
    case Then(b, Stamp(_)) => true
    case Then(b, Publish(_, _, _, _)) => false
    case Then(b, _) => Stamped(b)
  }

  /** The last health tick found the last contact too old. */
  predicate Stale(l: Log) {
    match l
    case Empty => false
    case Then(b, Tick(stale)) => stale
    case Then(b, _) => Stale(b)
  }

  /** No procedure has been entered since the critical section of Stop. */
  predicate HaltedLast(l: Log) {
    match l
    case Empty => false
    case Then(b, Leave(Shutdown, _)) => true
    case Then(b, Enter(_)) => false
    case Then(b, _) => HaltedLast(b)
  }

  /** A heartbeat has been started or stopped since the last procedure was entered. */
  predicate Touched(l: Log) {
    match l
    case Empty => false
    case Then(b, Enter(_)) => false
    case Then(b, StartHeartbeat) => true
    case Then(b, StopHeartbeat) => true
    case Then(b, _) => Touched(b)
  }

  /** The last procedure that was not turned away at its start has recovered the bridge. */
  predicate LeftBeating(l: Log) {
    match l
    case Empty => false
    case Then(b, Leave(_, outcome)) =>
      if outcome == Debounced || outcome == Refused then LeftBeating(b) else outcome == Recovered
    case Then(b, _) => LeftBeating(b)
  }

  predicate SoftFailure(e: Event) {
    e.Leave? && (e.site == TickReconnect || e.site == TickReboot) && e.outcome != Recovered
  }

  /** A reconnect or reboot of the health check has failed since the last tick. */
  predicate SoftFailed(l: Log) {
    match l
    case Empty => false
    case Then(b, Tick(_)) => false
    case Then(b, e) => SoftFailure(e) || SoftFailed(b)
  }

  // ---------- What may come next ----------

  predicate Allowed(cfg: Config, b: Log, e: Event) {
    match e
    case Enter(_) => Inside(b) == None
    case Leave(site, outcome) =>
      // Power is on again, whatever the outcome.
      && Inside(b) == Some(site) && !PlugOff(b)
      && (outcome == Recovered ==> Progress(b) == 5 && Beating(b))
      && (outcome == Exhausted ==> Attempts(b) == SLOTS && !Up(b) && !Beating(b))
      && (outcome in [Cancelled, Unreachable, RegisterFailed, Halted] ==> !Beating(b))
      && (outcome in [Debounced, Refused] ==> Attempts(b) == 0 && !Touched(b))
      && (site == Shutdown ==> outcome == Halted)
    case StopHeartbeat => Inside(b).Some? && Beating(b)
    case StartHeartbeat => Inside(b).Some? && !Beating(b) && Progress(b) == 4
    case Dial(_) => !Up(b) && !Beating(b) && !PlugOff(b) && Inside(b).Some?
      && Attempts(b) < Slots(ProcedureAt(Inside(b).value))
    case LoggedIn => Progress(b) == 1
    case Loaded => Progress(b) == 2
    case Registered => Progress(b) == 3
    case Lost => Up(b)
    case Stamp(now) => LastStamp(b).Some? && LastStamp(b).value != 0 ==> now - LastStamp(b).value >= GAP
    case Publish(site, topic, on, retained) =>
      && topic == cfg.topic != "" && !retained && Inside(b) == Some(site) && ProcedureAt(site) == PowerCycle
      && !Beating(b) && (on <==> PlugOff(b)) && (!on ==> Stamped(b))
      && (!on && site == TickCycle ==> cfg.restartOnError && Stale(b) && SoftFailed(b))
    case Unavailable => !Offline(b)
    case Available => Offline(b)
    case RebootRequest | Disconnect | Tick(_) => true
  }

  predicate Lawful(cfg: Config, l: Log) {
    match l
    case Empty => true
    case Then(b, e) => Lawful(cfg, b) && Allowed(cfg, b, e)
  }

  // ---------- The same as sequences ----------

  function Events(l: Log): seq<Event> {
    match l
    case Empty => []
    case Then(b, e) => Events(b) + [e]
  }

  /** The publishes of power cycles, in order; true means power on. */
  function PlugSwitches(l: Log): seq<bool> {
    match l
    case Empty => []
    case Then(b, Publish(_, _, on, _)) => PlugSwitches(b) + [on]
    case Then(b, _) => PlugSwitches(b)
  }

  /** The availability transitions, in order; true means available. */
  function Transitions(l: Log): seq<bool> {
    match l
    case Empty => []
    case Then(b, Unavailable) => Transitions(b) + [false]
    case Then(b, Available) => Transitions(b) + [true]
    case Then(b, _) => Transitions(b)
  }

  /** The starts and stops of heartbeats, in order; true means stopped. */
  function Beats(l: Log): seq<bool> {
    match l
    case Empty => []
    case Then(b, StartHeartbeat) => Beats(b) + [false]
    case Then(b, StopHeartbeat) => Beats(b) + [true]
    case Then(b, _) => Beats(b)
  }

  function Stamps(l: Log): seq<int> {
    match l
    case Empty => []
    case Then(b, Stamp(now)) => Stamps(b) + [now]
    case Then(b, _) => Stamps(b)
  }

  function Cuts(l: Log): nat {
    match l
    case Empty => 0
    case Then(b, Publish(_, _, on, _)) => Cuts(b) + if on then 0 else 1
    case Then(b, _) => Cuts(b)
  }

  predicate Alternates(s: seq<bool>) {
    forall i :: 0 <= i < |s| ==> s[i] == (i % 2 == 1)
  }

  /** The plug sees (OFF, ON)*, with a trailing OFF exactly while it is off. */
  lemma {:induction false} PlugAlternates(cfg: Config, l: Log)
    requires Lawful(cfg, l)
    ensures Alternates(PlugSwitches(l)) && (PlugOff(l) <==> |PlugSwitches(l)| % 2 == 1)
    ensures cfg.topic == "" ==> PlugSwitches(l) == []
  {
    if l.Then? {
      PlugAlternates(cfg, l.before);
    }
  }

  lemma {:induction false} AvailabilityAlternates(cfg: Config, l: Log)
    requires Lawful(cfg, l)
    ensures Alternates(Transitions(l)) && (Offline(l) <==> |Transitions(l)| % 2 == 1)
  {
    if l.Then? {
      AvailabilityAlternates(cfg, l.before);
    }
  }

  lemma {:induction false} HeartbeatsAlternate(cfg: Config, l: Log)
    requires Lawful(cfg, l)
    ensures Alternates(Beats(l)) && (Beating(l) <==> |Beats(l)| % 2 == 1)
  {
    if l.Then? {
      HeartbeatsAlternate(cfg, l.before);
    }
  }

  lemma {:induction false} HaltedIsQuiet(cfg: Config, l: Log)
    requires Lawful(cfg, l) && HaltedLast(l)
    ensures Inside(l) == None && !Beating(l)
  {
    if !(l.event.Leave? && l.event.site == Shutdown) {
      HaltedIsQuiet(cfg, l.before);
    }
  }

  /** Outside the procedures, and inside one that has not touched the heartbeat yet, a heartbeat runs
      exactly if the last procedure that was not turned away has recovered. */
  lemma {:induction false} BeatingIff(cfg: Config, l: Log)
    requires Lawful(cfg, l)
    ensures Inside(l) == None || !Touched(l) ==> (Beating(l) <==> LeftBeating(l))
  {
    if l.Then? {
      BeatingIff(cfg, l.before);
    }
  }

  /** b is an earlier history of l, and e came next. */
  predicate Continued(l: Log, b: Log, e: Event) {
    l.Then? && ((l.before == b && l.event == e) || Continued(l.before, b, e))
  }

  lemma {:induction false} EveryEventAllowed(cfg: Config, l: Log, b: Log, e: Event)
    requires Lawful(cfg, l) && Continued(l, b, e)
    ensures Allowed(cfg, b, e)
  {
    if l.before != b || l.event != e {
      EveryEventAllowed(cfg, l.before, b, e);
    }
  }

  function Count(s: seq<bool>, v: bool): nat {
    if s == [] then 0 else Count(s[..|s| - 1], v) + if s[|s| - 1] == v then 1 else 0
  }

  lemma {:induction false} AlternationCounts(s: seq<bool>)
    requires Alternates(s)
    ensures Count(s, false) == Count(s, true) + |s| % 2
  {
    if s != [] {
      AlternationCounts(s[..|s| - 1]);
    }
  }

  // ---------- Debounce ----------

  lemma {:induction false} StampsSpaced(cfg: Config, l: Log)
    requires Lawful(cfg, l)
    ensures LastStamp(l) == if Stamps(l) == [] then None else Some(Stamps(l)[|Stamps(l)| - 1])
    ensures forall i :: 0 <= i < |Stamps(l)| - 1 && Stamps(l)[i] != 0 ==> Stamps(l)[i + 1] - Stamps(l)[i] >= GAP
  {
    if l.Then? {
      StampsSpaced(cfg, l.before);
    }
  }

  /** Every cut of the power has a stamp of its own. */
  lemma {:induction false} CutsAreStamped(cfg: Config, l: Log)
    requires Lawful(cfg, l)
    ensures Cuts(l) + (if Stamped(l) then 1 else 0) <= |Stamps(l)|
  {
    if l.Then? {
      CutsAreStamped(cfg, l.before);
    }
  }

  lemma {:induction false} SpacedFromSteps(stamps: seq<int>, i: nat, j: nat)
    requires i <= j < |stamps|
    requires forall k :: 0 <= k < |stamps| - 1 ==> stamps[k + 1] - stamps[k] >= GAP
    ensures stamps[j] - stamps[i] >= (j - i) * GAP
    decreases j
  {
    if i < j {
      SpacedFromSteps(stamps, i, j - 1);
      assert stamps[(j - 1) + 1] - stamps[j - 1] >= GAP;
    }
  }

  /** The stamps from first on that lie in the window. */
  function InWindow(stamps: seq<int>, from: int, width: int): set<nat> {
    set k: nat | k < |stamps| && from <= stamps[k] <= from + width
  }

  /** A window of the given width holds at most width / 15 min + 1 power cycles. */
  lemma WindowBound(stamps: seq<int>, from: int, width: nat)
    requires forall k :: 0 <= k < |stamps| - 1 ==> stamps[k + 1] - stamps[k] >= GAP
    ensures |InWindow(stamps, from, width)| <= width / GAP + 1
  {
    var window := InWindow(stamps, from, width);
    if window != {} {
      var first := 0;
      while first !in window
        invariant forall k :: k in window ==> first <= k
        decreases |stamps| - first
      {
        first := first + 1;
      }
      var last := first + width / GAP;
      forall k | k in window
        ensures first <= k <= last
      {
        SpacedFromSteps(stamps, first, k);
        assert (k - first) * GAP <= width;
        DivideGap(k - first, width);
      }
      IntervalSize(window, first, last);
    }
  }

  lemma DivideGap(n: nat, width: nat)
    requires n * GAP <= width
    ensures n <= width / GAP
  {
  }

  lemma {:induction false} IntervalSize(s: set<nat>, low: nat, high: nat)
    requires low <= high && forall k :: k in s ==> low <= k <= high
    ensures |s| <= high - low + 1
    decreases high - low
  {
    var rest := s - {high};
    if low == high {
      assert rest == {};
    } else {
      IntervalSize(rest, low, high - 1);
    }
  }

  // ---------- Escalation ----------

  /** Before position k of the history there is a stale tick, later a failed reconnect or reboot of the
      health check, and no other tick in between. */
  ghost predicate EscalatedAt(events: seq<Event>, k: nat)
    requires k <= |events|
  {
    exists i, j :: 0 <= i < j < k && Ladder(events, i, j, k)
  }

  ghost predicate Ladder(events: seq<Event>, i: nat, j: nat, k: nat)
    requires i < j < k <= |events|
  {
    events[i] == Tick(true) && SoftFailure(events[j]) && forall n :: i < n < k ==> !events[n].Tick?
  }

  ghost predicate StaleAt(events: seq<Event>, i: nat) {
    i < |events| && events[i] == Tick(true) && forall n :: i < n < |events| ==> !events[n].Tick?
  }

  lemma {:induction false} StaleIndex(l: Log) returns (i: nat)
    requires Stale(l)
    ensures StaleAt(Events(l), i)
  {
    if l.event.Tick? {
      i := |Events(l.before)|;
    } else {
      i := StaleIndex(l.before);
    }
  }

  lemma {:induction false} LadderIndex(l: Log) returns (i: nat, j: nat)
    requires Stale(l) && SoftFailed(l)
    ensures i < j < |Events(l)| && Ladder(Events(l), i, j, |Events(l)|)
  {
    if SoftFailure(l.event) {
      i := StaleIndex(l.before);
      j := |Events(l.before)|;
    } else {
      i, j := LadderIndex(l.before);
    }
  }

  /** Every cut of the power by a health check stands at the end of the ladder. */
  lemma {:induction false} CutsEscalate(cfg: Config, l: Log, k: nat)
    requires Lawful(cfg, l) && k < |Events(l)|
    requires Events(l)[k].Publish? && Events(l)[k].site == TickCycle && !Events(l)[k].on
    ensures cfg.restartOnError && cfg.topic != "" && EscalatedAt(Events(l), k)
  {
    if k == |Events(l)| - 1 {
      var i, j := LadderIndex(l.before);
      assert Ladder(Events(l), i, j, k);
    } else {
      CutsEscalate(cfg, l.before, k);
      var i, j :| 0 <= i < j < k && Ladder(Events(l.before), i, j, k);
      assert Ladder(Events(l), i, j, k);
    }
  }
}
