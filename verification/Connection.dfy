/** The lifecycle of the gateway connection (app/klf200/connection.go): Connect, Disconnect and the
    exits of read loops, each split at its critical sections and interleaved at will. A connection
    and its lifecycle channel carry the value of connectionCounter at the moment of installation. */
module Connection {
  import opened Bytes

  /** The mutex-guarded fields, and the goroutines between their critical sections. */
  datatype State = State(
    tlsConn: Option<nat>,
    connected: bool,
    life: nat,
    connectionCounter: nat,
    dialing: nat,            // Connect calls that passed the connected check and are dialling
    loops: set<nat>,         // read loops running
    exiting: set<nat>,       // read loops past their cleanup, about to signal
    closing: set<nat>,       // Disconnect calls that took a connection, about to signal its lifecycle
    lost: seq<nat>)          // every close of a lost channel, in order

  const Initial := State(None, false, 0, 0, 0, {}, {}, {}, [])

  datatype Action =
    | ConnectCheck           // first critical section of Connect
    | DialFailed
    | Install                // second critical section of Connect, and the start of its read loop
    | DisconnectTake         // critical section of Disconnect
    | DisconnectSignal(life: nat)
    | LoopCleanup(conn: nat) // critical section of the deferred function of readLoop
    | LoopSignal(life: nat)

  /** signalLost closes the channel once. */
  function SignalLost(lost: seq<nat>, life: nat): seq<nat> {
    if life in lost then lost else lost + [life]
  }

  function Step(s: State, a: Action): State {
    match a
    case ConnectCheck => if s.connected then s else s.(dialing := s.dialing + 1)
    case DialFailed => if s.dialing == 0 then s else s.(dialing := s.dialing - 1)
    case Install =>
      if s.dialing == 0 then s
      else
        var c := s.connectionCounter + 1;
        s.(dialing := s.dialing - 1, tlsConn := Some(c), connected := true, life := c, connectionCounter := c,
           loops := s.loops + {c})
    case DisconnectTake =>
      var taken := s.(tlsConn := None, connected := false);
      if s.tlsConn.None? then taken else taken.(closing := s.closing + {s.life})
    case DisconnectSignal(life) =>
      if life !in s.closing then s else s.(closing := s.closing - {life}, lost := SignalLost(s.lost, life))
    case LoopCleanup(conn) =>
      if conn !in s.loops then s
      else
        var t := s.(loops := s.loops - {conn}, exiting := s.exiting + {conn});
        if s.tlsConn == Some(conn) then t.(connected := false, tlsConn := None) else t
    case LoopSignal(life) =>
      if life !in s.exiting then s else s.(exiting := s.exiting - {life}, lost := SignalLost(s.lost, life))
  }

  function Execute(s: State, actions: seq<Action>): State {
    if actions == [] then s else Step(Execute(s, actions[..|actions| - 1]), actions[|actions| - 1])
  }

  // ---------- Safety of every interleaving ----------

  ghost predicate Invariant(s: State) {
    && (s.connected <==> s.tlsConn.Some?)
    && s.life == s.connectionCounter
    && (s.tlsConn.Some? ==> s.tlsConn.value == s.life >= 1)
    && (forall c :: c in s.loops || c in s.exiting || c in s.closing ==> 1 <= c <= s.connectionCounter)
    && (forall c :: c in s.exiting || c in s.closing ==> s.tlsConn != Some(c))
    && (forall i :: 0 <= i < |s.lost| ==> 1 <= s.lost[i] <= s.connectionCounter && s.tlsConn != Some(s.lost[i]))
    && (forall i, j :: 0 <= i < j < |s.lost| ==> s.lost[i] != s.lost[j])
  }

  lemma StepKeepsInvariant(s: State, a: Action)
    requires Invariant(s)
    ensures Invariant(Step(s, a))
  {
  }

  /** In every run: connected exactly when there is a connection, whose lifecycle is the current one
      and has not been signalled as lost; and no lost channel is closed twice. */
  lemma {:induction false} LifecycleSafety(actions: seq<Action>)
    ensures var s := Execute(Initial, actions);
            && Invariant(s)
            && (s.connected <==> s.tlsConn.Some?)
            && (s.connected ==> s.tlsConn == Some(s.life) && s.life !in s.lost)
            && (forall i, j :: 0 <= i < j < |s.lost| ==> s.lost[i] != s.lost[j])
  {
    if actions != [] {
      LifecycleSafety(actions[..|actions| - 1]);
      StepKeepsInvariant(Execute(Initial, actions[..|actions| - 1]), actions[|actions| - 1]);
    }
  }

  /** In every reachable state, the exit of an older connection's read loop, and the end of a
      Disconnect that took an older connection, leave the current connection untouched. */
  lemma OldExitHarmless(actions: seq<Action>, older: nat)
    requires Execute(Initial, actions).tlsConn.Some? && Execute(Initial, actions).tlsConn != Some(older)
    ensures var s := Execute(Initial, actions);
            forall a :: a in [LoopCleanup(older), LoopSignal(older), DisconnectSignal(older)] ==>
              var t := Step(s, a);
              t.tlsConn == s.tlsConn && t.connected && t.life == s.life && s.life !in t.lost
  {
    LifecycleSafety(actions);
  }

  /** Once a read loop has run to its end its lost channel is closed, whoever disconnected. */
  lemma LoopEndSignals(actions: seq<Action>, conn: nat)
    requires conn in Execute(Initial, actions).loops
    ensures conn in Execute(Initial, actions + [LoopCleanup(conn)] + [LoopSignal(conn)]).lost
  {
    var once := actions + [LoopCleanup(conn)];
    assert once[..|once| - 1] == actions;
    var twice := once + [LoopSignal(conn)];
    assert twice[..|twice| - 1] == once;
  }

  /** A Disconnect that takes a connection closes its lost channel in the end, if nobody else has. */
  lemma DisconnectSignals(actions: seq<Action>)
    requires Execute(Initial, actions).tlsConn.Some?
    ensures var s := Execute(Initial, actions);
            var t := Execute(Initial, actions + [DisconnectTake] + [DisconnectSignal(s.life)]);
            s.tlsConn.value in t.lost && !t.connected && t.tlsConn == None
  {
    LifecycleSafety(actions);
    var s := Execute(Initial, actions);
    var once := actions + [DisconnectTake];
    assert once[..|once| - 1] == actions;
    var twice := once + [DisconnectSignal(s.life)];
    assert twice[..|twice| - 1] == once;
  }

  // ---------- Overlapping Connects ----------

  /** Connect calls never overlap: each starts when none is dialling. */
  predicate Serial(actions: seq<Action>) {
    forall i :: 0 <= i < |actions| && actions[i].ConnectCheck? ==> Execute(Initial, actions[..i]).dialing == 0
  }

  /** If Connect calls are serial, then whenever a dial is under way there is no connection that its
      installation could replace. */
  lemma {:induction false} SerialConnectReplacesNothing(actions: seq<Action>)
    requires Serial(actions)
    ensures var s := Execute(Initial, actions);
            s.dialing <= 1 && (s.dialing > 0 ==> s.tlsConn == None && !s.connected)
  {
    if actions != [] {
      var n := |actions| - 1;
      var before := actions[..n];
      forall i | 0 <= i < n && before[i].ConnectCheck?
        ensures Execute(Initial, before[..i]).dialing == 0
      {
        assert before[..i] == actions[..i];
      }
      SerialConnectReplacesNothing(before);
      LifecycleSafety(before);
    }
  }

  /** No further Connect passes its check. */
  predicate NoFurtherCheck(more: seq<Action>) {
    forall i :: 0 <= i < |more| ==> !more[i].ConnectCheck?
  }

  /** Somewhere in the continuation of s, an installation takes the place of a live connection. */
  ghost predicate Replaces(s: State, more: seq<Action>) {
    exists i :: 0 <= i < |more| && Displaces(Execute(s, more[..i]), more[i])
  }

  predicate Displaces(s: State, a: Action) {
    a.Install? && s.dialing > 0 && s.tlsConn.Some?
  }

  /** At most one dial under way, and no connection beside it. */
  ghost predicate Lone(s: State) {
    Invariant(s) && s.dialing <= 1 && (s.dialing == 1 ==> !s.connected)
  }

  lemma LoneStep(s: State, a: Action)
    requires Lone(s) && !a.ConnectCheck?
    ensures Lone(Step(s, a)) && !Displaces(s, a)
  {
    StepKeepsInvariant(s, a);
    hide Invariant;
    assert s.connected <==> s.tlsConn.Some? by {
      ConnectedIff(s);
    }
  }

  lemma ConnectedIff(s: State)
    requires Invariant(s)
    ensures s.connected <==> s.tlsConn.Some?
  {
  }

  lemma {:induction false} LoneRun(s: State, more: seq<Action>)
    requires Lone(s) && NoFurtherCheck(more)
    ensures Lone(Execute(s, more))
  {
    hide Lone, Step;
    if more != [] {
      LoneRun(s, more[..|more| - 1]);
      LoneStep(Execute(s, more[..|more| - 1]), more[|more| - 1]);
    }
  }

  /** With at most one dial under way and no connection beside it, no continuation displaces one. */
  lemma LoneDialDisplacesNothing(s: State, more: seq<Action>)
    requires Lone(s) && NoFurtherCheck(more)
    ensures !Replaces(s, more)
  {
    hide Lone, Execute, Displaces;
    forall i | 0 <= i < |more|
      ensures !Displaces(Execute(s, more[..i]), more[i])
    {
      LoneRun(s, more[..i]);
      LoneStep(Execute(s, more[..i]), more[i]);
    }
  }

  lemma TwoInstalls(s: State)
    requires Invariant(s) && (s.dialing >= 2 || (s.dialing == 1 && s.connected))
    ensures NoFurtherCheck([Install, Install]) && Replaces(s, [Install, Install])
  {
    var both := [Install, Install];
    assert both[..0] == [] && both[..1] == [Install] && [Install][..0] == [];
    assert Execute(s, []) == s && Execute(s, both[..1]) == Step(s, Install);
    if s.connected {
      assert Displaces(Execute(s, both[..0]), both[0]);
    } else {
      assert Displaces(Execute(s, both[..1]), both[1]);
    }
  }

  /** In every reachable state: even if no further Connect passes its check, an installation can still
      take the place of a live connection, if and only if two dials are under way, or one beside a
      connection. An overlap whose dials fail harms nothing. */
  lemma ReplacementIff(actions: seq<Action>)
    ensures var s := Execute(Initial, actions);
            (exists more :: NoFurtherCheck(more) && Replaces(s, more))
            <==> s.dialing >= 2 || (s.dialing == 1 && s.connected)
  {
    LifecycleSafety(actions);
    var s := Execute(Initial, actions);
    hide Execute, Replaces, NoFurtherCheck, Invariant;
    if s.dialing >= 2 || (s.dialing == 1 && s.connected) {
      TwoInstalls(s);
    } else {
      forall more | NoFurtherCheck(more)
        ensures !Replaces(s, more)
      {
        LoneDialDisplacesNothing(s, more);
      }
    }
  }

  /** Runs whose Connect calls are serial never displace a connection. */
  lemma SerialRunsDisplaceNothing(actions: seq<Action>)
    requires Serial(actions)
    ensures !Replaces(Initial, actions)
  {
    forall i | 0 <= i < |actions|
      ensures !Displaces(Execute(Initial, actions[..i]), actions[i])
    {
      var before := actions[..i];
      forall j | 0 <= j < i && before[j].ConnectCheck?
        ensures Execute(Initial, before[..j]).dialing == 0
      {
        assert before[..j] == actions[..j];
      }
      SerialConnectReplacesNothing(before);
    }
  }

  /** Two overlapping Connects both succeed; the first connection is replaced without being closed,
      its read loop keeps running, and no Disconnect will ever signal its lifecycle. */
  lemma OverlappingConnectsLeak()
    ensures var s := Execute(Initial, [ConnectCheck, ConnectCheck, Install, Install]);
            s.tlsConn == Some(2) && s.loops == {1, 2} && s.lost == []
            && Step(s, DisconnectTake).closing == {2}
  {
    var a0: seq<Action> := [];
    var a1, a2, a3 := [ConnectCheck], [ConnectCheck, ConnectCheck], [ConnectCheck, ConnectCheck, Install];
    var a4 := [ConnectCheck, ConnectCheck, Install, Install];
    assert a4[..3] == a3 && a3[..2] == a2 && a2[..1] == a1 && a1[..0] == a0;
    var s2 := Execute(Initial, a2);
    assert s2 == Initial.(dialing := 2);
    var s3 := Execute(Initial, a3);
    assert s3.loops == {1} && s3.dialing == 1 && s3.connectionCounter == 1;
  }

  // ---------- The connection object ----------

  class Conn {
    var tlsConn: Option<nat>
    var connected: bool
    var life: nat
    var connectionCounter: nat
    ghost var dialing: nat
    ghost var loops: set<nat>
    ghost var exiting: set<nat>
    ghost var closing: set<nat>
    ghost var lost: seq<nat>

    constructor ()
      ensures View() == Initial
    {
      tlsConn, connected, life, connectionCounter := None, false, 0, 0;
      dialing, loops, exiting, closing, lost := 0, {}, {}, {}, [];
    }

    ghost function View(): State
      reads this
    {
      State(tlsConn, connected, life, connectionCounter, dialing, loops, exiting, closing, lost)
    }

    /** Connect up to the dial. */
    method BeginConnect() returns (ok: bool)
      modifies this
      ensures ok == !old(connected) && View() == Step(old(View()), ConnectCheck)
    {
      if connected {
        return false;
      }
      dialing := dialing + 1;
      ok := true;
    }

    /** Connect after the dial returned. */
    method FinishConnect(dialled: bool) returns (ok: bool)
      requires dialing > 0
      modifies this
      ensures ok == dialled && View() == Step(old(View()), if dialled then Install else DialFailed)
      ensures ok ==>
                && connected && tlsConn == Some(connectionCounter)
                && life == connectionCounter == old(connectionCounter) + 1
                && loops == old(loops) + {connectionCounter}
      ensures !ok ==> connected == old(connected) && tlsConn == old(tlsConn) && loops == old(loops)
    {
      dialing := dialing - 1;
      if !dialled {
        return false;
      }
      connectionCounter := connectionCounter + 1;
      tlsConn := Some(connectionCounter);
      connected := true;
      life := connectionCounter;
      loops := loops + {connectionCounter};
      ok := true;
    }

    /** Disconnect up to the close of the socket; the result is the lifecycle to signal. */
    method BeginDisconnect() returns (taken: Option<nat>)
      modifies this
      ensures taken.Some? == old(tlsConn).Some? && (taken.Some? ==> taken.value == old(life))
      ensures View() == Step(old(View()), DisconnectTake)
      ensures !connected && tlsConn == None && loops == old(loops) && lost == old(lost)
    {
      var conn, current := tlsConn, life;
      tlsConn := None;
      connected := false;
      if conn.None? {
        return None;
      }
      closing := closing + {current};
      taken := Some(current);
    }

    method FinishDisconnect(taken: nat)
      requires taken in closing
      modifies this
      ensures View() == Step(old(View()), DisconnectSignal(taken))
      ensures taken in lost && old(lost) <= lost && tlsConn == old(tlsConn) && connected == old(connected)
    {
      closing := closing - {taken};
      if taken !in lost {
        lost := lost + [taken];
      }
    }

    /** The critical section of the deferred cleanup of a read loop. */
    method EndReadLoop(conn: nat)
      requires conn in loops
      modifies this
      ensures View() == Step(old(View()), LoopCleanup(conn))
      ensures conn !in loops && (if old(tlsConn) == Some(conn) then tlsConn == None && !connected
                                 else tlsConn == old(tlsConn) && connected == old(connected))
    {
      loops, exiting := loops - {conn}, exiting + {conn};
      if tlsConn == Some(conn) {
        connected := false;
        tlsConn := None;
      }
    }

    method SignalReadLoop(conn: nat)
      requires conn in exiting
      modifies this
      ensures View() == Step(old(View()), LoopSignal(conn))
      ensures conn in lost && old(lost) <= lost && tlsConn == old(tlsConn) && connected == old(connected)
    {
      exiting := exiting - {conn};
      if conn !in lost {
        lost := lost + [conn];
      }
    }
  }
}
