/** The lifecycle of the heartbeat (app/klf200/heartbeat.go): Start, Stop and the exit of the loop,
    split at their critical sections. The channels of the n-th Start carry the number n. */
module Heartbeat {
  datatype State = State(
    running: bool,
    generation: nat,         // whose channels stopCh and doneCh are
    loops: set<nat>,         // goroutines running
    waiting: set<nat>,       // Stop calls waiting for a done channel
    stopCloses: seq<nat>,    // every close of a stop channel, in order
    doneCloses: seq<nat>)    // every close of a done channel, in order

  const Initial := State(false, 0, {}, {}, [], [])

  datatype Action =
    | Start
    | StopSignal             // critical section of Stop
    | StopReturn(n: nat)     // the receive from the done channel
    | LoopExit(n: nat)       // deferred critical section of a loop that found the stop channel closed

  function Step(s: State, a: Action): State {
    match a
    case Start =>
      if s.running then s
      else s.(running := true, generation := s.generation + 1, loops := s.loops + {s.generation + 1})
    case StopSignal =>
      if !s.running then s
      else s.(stopCloses := s.stopCloses + [s.generation], waiting := s.waiting + {s.generation})
    case StopReturn(n) =>
      if n in s.waiting && n in s.doneCloses then s.(waiting := s.waiting - {n}) else s
    case LoopExit(n) =>
      if n in s.loops && s.generation in s.stopCloses then
        s.(running := false, loops := s.loops - {n}, doneCloses := s.doneCloses + [s.generation])
      else s
  }

  function Execute(s: State, actions: seq<Action>): State {
    if actions == [] then s else Step(Execute(s, actions[..|actions| - 1]), actions[|actions| - 1])
  }

  predicate Distinct(closes: seq<nat>) {
    forall i, j :: 0 <= i < j < |closes| ==> closes[i] != closes[j]
  }

  ghost predicate Invariant(s: State) {
    && (s.running ==> s.generation >= 1)
    && s.loops == (if s.running then {s.generation} else {})
    && Distinct(s.doneCloses)
    && (forall n :: n in s.doneCloses <==> 1 <= n <= s.generation && n !in s.loops)
    && (forall n :: n in s.waiting ==> n in s.stopCloses)
    && (forall n :: n in s.stopCloses ==> 1 <= n <= s.generation)
    && (forall n :: n in s.doneCloses ==> n in s.stopCloses)
  }

  lemma StepKeepsInvariant(s: State, a: Action)
    requires Invariant(s)
    ensures Invariant(Step(s, a))
  {
    var t := Step(s, a);
    if a.LoopExit? && t != s {
      DistinctSnoc(s.doneCloses, s.generation);
    }
  }

  lemma DistinctSnoc(closes: seq<nat>, n: nat)
    ensures Distinct(closes + [n]) <==> Distinct(closes) && n !in closes
  {
    var all := closes + [n];
    assert all[|closes|] == n;
    assert forall i :: 0 <= i < |closes| ==> all[i] == closes[i];
    if n in closes {
      var i :| 0 <= i < |closes| && closes[i] == n;
      assert all[i] == all[|closes|];
    }
    if Distinct(all) {
      forall i, j | 0 <= i < j < |closes|
        ensures closes[i] != closes[j]
      {
        assert all[i] != all[j];
      }
    }
  }

  /** In every run there is at most one loop, running exactly while the flag is set; every done
      channel is closed at most once, and only after its stop channel; and a Stop that may return
      has seen the end of the loop it stopped. */
  lemma {:induction false} HeartbeatSafety(actions: seq<Action>)
    ensures var s := Execute(Initial, actions);
            && Invariant(s)
            && s.loops == (if s.running then {s.generation} else {})
            && Distinct(s.doneCloses)
            && (forall n :: n in s.doneCloses ==> n in s.stopCloses && n !in s.loops)
  {
    if actions != [] {
      HeartbeatSafety(actions[..|actions| - 1]);
      StepKeepsInvariant(Execute(Initial, actions[..|actions| - 1]), actions[|actions| - 1]);
    }
  }

  /** A Stop never hangs: once it has signalled, the exit of the loop is enabled and lets it return. */
  lemma StopReturns(actions: seq<Action>, n: nat)
    requires n in Execute(Initial, actions).waiting
    ensures n !in Execute(Initial, actions + [LoopExit(n)] + [StopReturn(n)]).waiting
  {
    HeartbeatSafety(actions);
    var exited := actions + [LoopExit(n)];
    assert exited[..|exited| - 1] == actions;
    var s := Execute(Initial, actions);
    assert n in Step(s, LoopExit(n)).doneCloses;
    var returned := exited + [StopReturn(n)];
    assert returned[..|returned| - 1] == exited;
  }

  /** No Stop reaches its critical section between another Stop's signal and the exit of the loop. */
  predicate StopsDoNotOverlap(actions: seq<Action>) {
    forall i :: 0 <= i < |actions| && actions[i].StopSignal? ==>
      var s := Execute(Initial, actions[..i]);
      s.running ==> s.generation !in s.stopCloses
  }

  /** A stop channel is closed twice (in Go, a panic) if and only if two Stops overlap. */
  lemma {:induction false} StopClosesOnceIff(actions: seq<Action>)
    ensures Distinct(Execute(Initial, actions).stopCloses) <==> StopsDoNotOverlap(actions)
  {
    if actions != [] {
      var n := |actions| - 1;
      var before, last := actions[..n], actions[n];
      StopClosesOnceIff(before);
      assert forall i :: 0 <= i < n ==> before[..i] == actions[..i];
      var s := Execute(Initial, before);
      if last.StopSignal? && s.running {
        DistinctSnoc(s.stopCloses, s.generation);
      }
      assert StopsDoNotOverlap(actions) <==>
        StopsDoNotOverlap(before) && (last.StopSignal? && s.running ==> s.generation !in s.stopCloses)
      by {
        SplitOverlap(actions);
      }
    }
  }

  lemma SplitOverlap(actions: seq<Action>)
    requires actions != []
    ensures var before, last := actions[..|actions| - 1], actions[|actions| - 1];
            var s := Execute(Initial, before);
            StopsDoNotOverlap(actions) <==>
            StopsDoNotOverlap(before) && (last.StopSignal? && s.running ==> s.generation !in s.stopCloses)
  {
    hide Execute;
    var before := actions[..|actions| - 1];
    forall i | 0 <= i < |before|
      ensures before[i] == actions[i] && before[..i] == actions[..i]
    {
    }
  }

  lemma OverlappingStopsCloseTwice()
    ensures Execute(Initial, [Start, StopSignal, StopSignal]).stopCloses == [1, 1]
  {
    var a1, a2, a3 := [Start], [Start, StopSignal], [Start, StopSignal, StopSignal];
    assert a3[..2] == a2 && a2[..1] == a1 && a1[..0] == [];
    assert Execute(Initial, a1) == State(true, 1, {1}, {}, [], []);
    assert Execute(Initial, a2) == State(true, 1, {1}, {1}, [1], []);
  }

  // ---------- The heartbeat object ----------

  class Pulse {
    var running: bool
    var generation: nat
    ghost var loops: set<nat>
    ghost var waiting: set<nat>
    ghost var stopCloses: seq<nat>
    ghost var doneCloses: seq<nat>

    constructor ()
      ensures View() == Initial
    {
      running, generation := false, 0;
      loops, waiting, stopCloses, doneCloses := {}, {}, [], [];
    }

    ghost function View(): State
      reads this
    {
      State(running, generation, loops, waiting, stopCloses, doneCloses)
    }

    method Start()
      modifies this
      ensures View() == Step(old(View()), Action.Start)
      ensures running
      ensures if old(running) then View() == old(View())
              else generation == old(generation) + 1 && loops == old(loops) + {generation}
    {
      if running {
        return;
      }
      generation := generation + 1;
      running := true;
      loops := loops + {generation};
    }

    /** Stop up to its wait; the result is the channel it waits for. */
    method BeginStop() returns (wait: bool, done: nat)
      modifies this
      ensures wait == old(running) && (wait ==> done == old(generation))
      ensures View() == Step(old(View()), StopSignal)
      ensures if old(running) then stopCloses == old(stopCloses) + [done] && done in waiting else View() == old(View())
    {
      if !running {
        return false, 0;
      }
      stopCloses := stopCloses + [generation];
      waiting := waiting + {generation};
      return true, generation;
    }

    /** The deferred cleanup of loop n, which runs once the loop has found its stop channel closed. */
    method ExitLoop(n: nat)
      requires n in loops && generation in stopCloses
      modifies this
      ensures View() == Step(old(View()), LoopExit(n))
      ensures !running && n !in loops && doneCloses == old(doneCloses) + [generation]
    {
      running := false;
      loops := loops - {n};
      doneCloses := doneCloses + [generation];
    }
  }
}
