/** The callback registry of the connection (app/klf200/connection.go), the calls that register and
    unregister around each exchange (app/klf200/event.go) and the client's updater dispatch
    (app/klf200/client.go). Handles are 64-bit counters, taken as unbounded. */
module Callbacks {
  datatype Owner = Call(k: nat) | UpdaterDispatch

  datatype Handle = Handle(id: nat, owner: Owner)

  // ---------- Registry ----------

  function Without(callbacks: seq<Handle>, id: nat): seq<Handle> {
    if callbacks == [] then []
    else if callbacks[0].id == id then callbacks[1..]
    else [callbacks[0]] + Without(callbacks[1..], id)
  }

  class Registry {
    var nextCBID: nat
    var callbacks: seq<Handle>

    constructor ()
      ensures nextCBID == 0 && callbacks == []
    {
      nextCBID, callbacks := 0, [];
    }

    method Register(owner: Owner) returns (handle: nat)
      modifies this
      ensures handle == nextCBID == old(nextCBID) + 1
      ensures callbacks == old(callbacks) + [Handle(handle, owner)]
    {
      nextCBID := nextCBID + 1;
      handle := nextCBID;
      callbacks := callbacks + [Handle(handle, owner)];
    }

    method Unregister(handle: nat)
      modifies this
      ensures nextCBID == old(nextCBID) && callbacks == Without(old(callbacks), handle)
    {
      for i := 0 to |callbacks|
        invariant callbacks == old(callbacks)
        invariant forall j :: 0 <= j < i ==> callbacks[j].id != handle
      {
        if callbacks[i].id == handle {
          WithoutAt(callbacks, i);
          callbacks := callbacks[..i] + callbacks[i + 1..];
          return;
        }
      }
      WithoutNone(callbacks, handle);
    }

    /** One exchange with no other registry traffic: the write, then the select over what happens while
        the call waits. As long as nothing ends it, the call stays registered; any ending restores the
        registry. */
    method DoAPICall(k: nat, written: bool, signals: seq<Signal>) returns (ending: Waiting)
      requires forall i :: 0 <= i < |callbacks| ==> callbacks[i].id <= nextCBID
      modifies this
      ensures nextCBID == old(nextCBID) + 1
      ensures ending == if written then EndingOf(signals) else Ended(WriteFailed)
      ensures callbacks == old(callbacks) + if ending.Ended? then [] else [Handle(nextCBID, Call(k))]
    {
      var handle := Register(Call(k));
      WithoutLast(old(callbacks), Handle(handle, Call(k)));
      if !written {
        Unregister(handle);
        return Ended(WriteFailed);
      }
      for i := 0 to |signals|
        invariant callbacks == old(callbacks) + [Handle(handle, Call(k))] && nextCBID == handle
        invariant EndingOf(signals) == EndingOf(signals[i..])
      {
        assert signals[i..][1..] == signals[i + 1..];
        match signals[i] {
          case FrameDispatched(completes) =>
            if completes {
              Unregister(handle);
              return Ended(Done);
            }
          case LifecycleLost =>
            Unregister(handle);
            return Ended(Lost);
          case ContextEnded =>
            Unregister(handle);
            return Ended(ContextDone);
        }
      }
      return StillWaiting;
    }
  }

  datatype Ending = Done | Lost | ContextDone | WriteFailed

  datatype Waiting = StillWaiting | Ended(ending: Ending)

  /** What can reach a waiting call: a frame, which its handler takes as completing or not, the loss of
      the connection, and the end of its context. */
  datatype Signal = FrameDispatched(completes: bool) | LifecycleLost | ContextEnded

  function EndingOf(signals: seq<Signal>): Waiting {
    if signals == [] then StillWaiting
    else
      match signals[0]
      case FrameDispatched(completes) => if completes then Ended(Done) else EndingOf(signals[1..])
      case LifecycleLost => Ended(Lost)
      case ContextEnded => Ended(ContextDone)
  }

  /** A signal that ends a waiting call, and how. */
  predicate Decides(s: Signal) {
    s.FrameDispatched? ==> s.completes
  }

  /** A call ends with the first signal that decides it, and waits exactly as long as there is none. */
  lemma {:induction false} EndingIff(signals: seq<Signal>, t: nat)
    requires t <= |signals| && forall i :: 0 <= i < t ==> !Decides(signals[i])
    requires t < |signals| ==> Decides(signals[t])
    ensures EndingOf(signals)
            == if t == |signals| then StillWaiting
               else match signals[t]
                    case FrameDispatched(_) => Ended(Done)
                    case LifecycleLost => Ended(Lost)
                    case ContextEnded => Ended(ContextDone)
  {
    if t > 0 {
      assert !Decides(signals[0]);
      EndingIff(signals[1..], t - 1);
    }
  }

  lemma {:induction false} WithoutNone(callbacks: seq<Handle>, id: nat)
    requires forall j :: 0 <= j < |callbacks| ==> callbacks[j].id != id
    ensures Without(callbacks, id) == callbacks
  {
    if callbacks != [] {
      WithoutNone(callbacks[1..], id);
    }
  }

  lemma {:induction false} WithoutLast(callbacks: seq<Handle>, h: Handle)
    requires forall i :: 0 <= i < |callbacks| ==> callbacks[i].id != h.id
    ensures Without(callbacks + [h], h.id) == callbacks
  {
    if callbacks == [] {
      assert callbacks + [h] == [h];
    } else {
      assert (callbacks + [h])[1..] == callbacks[1..] + [h];
      WithoutLast(callbacks[1..], h);
    }
  }

  // ---------- Every interleaving of calls, connects and disconnects ----------

  /** How far a call has come; while it waits it watches the lifecycle that was current when it began
      to wait. */
  datatype Phase = Registered | Failed | Sent | Awaiting(life: nat)

  datatype Progress = Progress(handle: nat, phase: Phase, done: bool, expired: bool)

  datatype State = State(
    nextCBID: nat,
    callbacks: seq<Handle>,
    calls: map<nat, Progress>,   // the calls in progress
    life: nat,                   // the current lifecycle
    lost: set<nat>,              // lifecycles whose lost channel is closed
    updaterSet: bool,
    updaterCBID: nat)

  const Initial := State(0, [], map[], 0, {}, false, 0)

  datatype Action =
    | BeginCall(k: nat)
    | WriteReturned(k: nat, ok: bool)
    | Await(k: nat)              // Lost(), and the start of the select
    | Expire(k: nat)             // the context of the call is done
    | Dispatch(accepting: set<nat>) // a frame; accepting are the calls whose handler returns true on it
    | NewLife                    // a Connect succeeded
    | LoseLife(life: nat)        // a lost channel is closed
    | EndCall(k: nat, ending: Ending)
    | ClientConnected            // installUpdaterDispatch after a successful Conn.Connect
    | ClientDisconnect           // the client's part of Disconnect

  /** The exits that are open to a call. */
  predicate MayEnd(s: State, k: nat, ending: Ending) {
    k in s.calls &&
    var c := s.calls[k];
    match ending
    case WriteFailed => c.phase.Failed?
    case Done => c.phase.Awaiting? && c.done
    case Lost => c.phase.Awaiting? && c.phase.life in s.lost
    case ContextDone => c.phase.Awaiting? && c.expired
  }

  function Step(s: State, a: Action): State {
    match a
    case BeginCall(k) =>
      if k in s.calls then s
      else
        var id := s.nextCBID + 1;
        s.(nextCBID := id, callbacks := s.callbacks + [Handle(id, Call(k))],
           calls := s.calls[k := Progress(id, Registered, false, false)])
    case WriteReturned(k, ok) =>
      if k in s.calls && s.calls[k].phase.Registered? then
        s.(calls := s.calls[k := s.calls[k].(phase := if ok then Sent else Failed)])
      else s
    case Await(k) =>
      if k in s.calls && s.calls[k].phase.Sent? then
        s.(calls := s.calls[k := s.calls[k].(phase := Awaiting(s.life))])
      else s
    case Expire(k) => if k in s.calls then s.(calls := s.calls[k := s.calls[k].(expired := true)]) else s
    case Dispatch(accepting) => s.(calls := Delivered(s, accepting))
    case NewLife => s.(life := s.life + 1)
    case LoseLife(life) => if life <= s.life then s.(lost := s.lost + {life}) else s
    case EndCall(k, ending) =>
      if MayEnd(s, k, ending) then
        s.(callbacks := Without(s.callbacks, s.calls[k].handle), calls := s.calls - {k})
      else s
    case ClientConnected =>
      if s.updaterSet then s
      else
        var id := s.nextCBID + 1;
        s.(nextCBID := id, callbacks := s.callbacks + [Handle(id, UpdaterDispatch)], updaterSet := true,
          updaterCBID := id)
    case ClientDisconnect =>
      if !s.updaterSet then s
      else s.(callbacks := Without(s.callbacks, s.updaterCBID), updaterSet := false)
  }

  /** A frame reaches the callbacks that are registered, and no others. */
  function Delivered(s: State, accepting: set<nat>): map<nat, Progress> {
    map k | k in s.calls ::
      if k in accepting && Handle(s.calls[k].handle, Call(k)) in s.callbacks then s.calls[k].(done := true)
        else s.calls[k]
  }

  function Execute(s: State, actions: seq<Action>): State {
    if actions == [] then s else Step(Execute(s, actions[..|actions| - 1]), actions[|actions| - 1])
  }

  ghost predicate Ascending(callbacks: seq<Handle>, bound: nat) {
    && (forall i, j :: 0 <= i < j < |callbacks| ==> callbacks[i].id < callbacks[j].id)
    && (forall i :: 0 <= i < |callbacks| ==> 1 <= callbacks[i].id <= bound)
  }

  /** A handle is registered exactly when its call is in progress or its dispatch installed. */
  ghost predicate Accounted(s: State) {
    && (forall h :: h in s.callbacks <==>
          match h.owner
          case Call(k) => k in s.calls && s.calls[k].handle == h.id
          case UpdaterDispatch => s.updaterSet && s.updaterCBID == h.id)
  }

  ghost predicate Invariant(s: State) {
    Ascending(s.callbacks, s.nextCBID) && Accounted(s)
  }

  lemma {:induction false} WithoutAt(callbacks: seq<Handle>, at: nat)
    requires at < |callbacks| && forall j :: 0 <= j < at ==> callbacks[j].id != callbacks[at].id
    ensures Without(callbacks, callbacks[at].id) == callbacks[..at] + callbacks[at + 1..]
  {
    if at > 0 {
      var rest := callbacks[1..];
      WithoutAt(rest, at - 1);
      assert callbacks[..at] == [callbacks[0]] + rest[..at - 1];
      assert callbacks[at + 1..] == rest[at..];
    }
  }

  /** Unregistering removes exactly its handle and keeps the order of the others. */
  lemma WithoutRemovesOne(callbacks: seq<Handle>, h: Handle, bound: nat)
    requires Ascending(callbacks, bound) && h in callbacks
    ensures Ascending(Without(callbacks, h.id), bound)
    ensures forall g :: g in Without(callbacks, h.id) <==> g in callbacks && g.id != h.id
    ensures |Without(callbacks, h.id)| == |callbacks| - 1
  {
    var at :| 0 <= at < |callbacks| && callbacks[at] == h;
    WithoutAt(callbacks, at);
    hide Without;
    CutKeepsOrder(callbacks, at, bound);
    CutMembers(callbacks, at, bound);
  }

  lemma CutKeepsOrder(callbacks: seq<Handle>, at: nat, bound: nat)
    requires Ascending(callbacks, bound) && at < |callbacks|
    ensures Ascending(callbacks[..at] + callbacks[at + 1..], bound)
  {
    var r := callbacks[..at] + callbacks[at + 1..];
    assert forall i :: 0 <= i < at ==> r[i] == callbacks[i];
    assert forall i :: at <= i < |r| ==> r[i] == callbacks[i + 1];
  }

  lemma CutMembers(callbacks: seq<Handle>, at: nat, bound: nat)
    requires Ascending(callbacks, bound) && at < |callbacks|
    ensures forall g :: g in callbacks[..at] + callbacks[at + 1..] <==> g in callbacks && g.id != callbacks[at].id
  {
    hide Ascending;
    forall g
      ensures g in callbacks[..at] + callbacks[at + 1..] <==> g in callbacks && g.id != callbacks[at].id
    {
      CutKeeps(callbacks, at, bound, g);
      CutIsSubset(callbacks, at, bound, g);
    }
  }

  lemma CutIsSubset(callbacks: seq<Handle>, at: nat, bound: nat, g: Handle)
    requires Ascending(callbacks, bound) && at < |callbacks|
    ensures g in callbacks[..at] + callbacks[at + 1..] ==> g in callbacks && g.id != callbacks[at].id
  {
    var r := callbacks[..at] + callbacks[at + 1..];
    if g in r {
      var i :| 0 <= i < |r| && r[i] == g;
      var j := if i < at then i else i + 1;
      assert g == callbacks[j];
    }
  }

  lemma CutKeeps(callbacks: seq<Handle>, at: nat, bound: nat, g: Handle)
    requires Ascending(callbacks, bound) && at < |callbacks|
    ensures g in callbacks && g.id != callbacks[at].id ==> g in callbacks[..at] + callbacks[at + 1..]
  {
    if g in callbacks && g.id != callbacks[at].id {
      var i :| 0 <= i < |callbacks| && callbacks[i] == g;
      if i < at {
        assert callbacks[..at][i] == g;
      } else {
        assert callbacks[at + 1..][i - at - 1] == g;
      }
    }
  }

  /** The calls may progress, as long as none loses its handle. */
  lemma CallsProgress(s: State, calls: map<nat, Progress>)
    requires Invariant(s) && calls.Keys == s.calls.Keys
    requires forall k :: k in calls ==> calls[k].handle == s.calls[k].handle
    ensures Invariant(s.(calls := calls))
  {
    hide Ascending;
  }

  lemma BeginKeepsInvariant(s: State, k: nat)
    requires Invariant(s) && k !in s.calls
    ensures Invariant(Step(s, BeginCall(k)))
  {
    hide Without, Ascending;
    Appended(s, Handle(s.nextCBID + 1, Call(k)));
  }

  lemma EndKeepsInvariant(s: State, k: nat, ending: Ending)
    requires Invariant(s) && MayEnd(s, k, ending)
    ensures Invariant(Step(s, EndCall(k, ending)))
  {
    hide Without, Ascending;
    WithoutRemovesOne(s.callbacks, Handle(s.calls[k].handle, Call(k)), s.nextCBID);
    UniqueOwner(s, Handle(s.calls[k].handle, Call(k)));
  }

  lemma ClientKeepsInvariant(s: State, a: Action)
    requires Invariant(s) && (a.ClientConnected? || a.ClientDisconnect?)
    ensures Invariant(Step(s, a))
  {
    hide Without, Ascending;
    if a.ClientConnected? && !s.updaterSet {
      Appended(s, Handle(s.nextCBID + 1, UpdaterDispatch));
    }
    if a.ClientDisconnect? && s.updaterSet {
      WithoutRemovesOne(s.callbacks, Handle(s.updaterCBID, UpdaterDispatch), s.nextCBID);
      UniqueOwner(s, Handle(s.updaterCBID, UpdaterDispatch));
    }
  }

  lemma LivesKeepInvariant(s: State, life: nat, lost: set<nat>)
    requires Invariant(s)
    ensures Invariant(s.(life := life, lost := lost))
  {
    hide Ascending;
  }

  lemma StepKeepsInvariant(s: State, a: Action)
    requires Invariant(s)
    ensures Invariant(Step(s, a))
  {
    hide Without, Invariant, MayEnd;
    match a
    case BeginCall(k) =>
      if k !in s.calls {
        BeginKeepsInvariant(s, k);
      }
    case EndCall(k, ending) =>
      if MayEnd(s, k, ending) {
        EndKeepsInvariant(s, k, ending);
      }
    case ClientConnected => ClientKeepsInvariant(s, a);
    case ClientDisconnect => ClientKeepsInvariant(s, a);
    case NewLife => LivesKeepInvariant(s, s.life + 1, s.lost);
    case LoseLife(life) => LivesKeepInvariant(s, s.life, s.lost + {life});
    case _ => CallsProgress(s, Step(s, a).calls);
  }

  lemma Appended(s: State, h: Handle)
    requires Invariant(s) && h.id == s.nextCBID + 1
    ensures Ascending(s.callbacks + [h], h.id)
    ensures forall g :: g in s.callbacks + [h] <==> g in s.callbacks || g == h
    ensures forall g :: g in s.callbacks ==> g.id != h.id
  {
    forall g | g in s.callbacks
      ensures g.id != h.id
    {
      var i :| 0 <= i < |s.callbacks| && s.callbacks[i] == g;
    }
  }

  lemma UniqueOwner(s: State, h: Handle)
    requires Invariant(s) && h in s.callbacks
    ensures forall g :: g in s.callbacks && g.id == h.id ==> g == h
  {
    forall g | g in s.callbacks && g.id == h.id
      ensures g == h
    {
      var i :| 0 <= i < |s.callbacks| && s.callbacks[i] == g;
      var j :| 0 <= j < |s.callbacks| && s.callbacks[j] == h;
    }
  }

  /** In every reachable state the handles are unique and ascending, and they are exactly those of the
      calls in progress plus, once, that of the updater dispatch if it is installed. */
  lemma {:induction false} RegistrySafety(actions: seq<Action>)
    ensures Invariant(Execute(Initial, actions))
  {
    if actions != [] {
      RegistrySafety(actions[..|actions| - 1]);
      StepKeepsInvariant(Execute(Initial, actions[..|actions| - 1]), actions[|actions| - 1]);
    }
  }

  /** Number of dispatch callbacks a frame is fanned out to. */
  function Dispatches(callbacks: seq<Handle>): nat {
    if callbacks == [] then 0
    else (if callbacks[0].owner == UpdaterDispatch then 1 else 0) + Dispatches(callbacks[1..])
  }

  lemma {:induction false} NoDispatch(callbacks: seq<Handle>)
    requires forall i :: 0 <= i < |callbacks| ==> callbacks[i].owner != UpdaterDispatch
    ensures Dispatches(callbacks) == 0
  {
    if callbacks != [] {
      NoDispatch(callbacks[1..]);
    }
  }

  lemma {:induction false} OneDispatch(callbacks: seq<Handle>, at: nat)
    requires at < |callbacks|
    requires forall i :: 0 <= i < |callbacks| ==> (callbacks[i].owner == UpdaterDispatch <==> i == at)
    ensures Dispatches(callbacks) == 1
  {
    if at == 0 {
      NoDispatch(callbacks[1..]);
    } else {
      OneDispatch(callbacks[1..], at - 1);
    }
  }

  /** After every successful client connect, however many reconnects came before and whatever calls
      are in flight, the updater dispatch is registered exactly once; after a disconnect not at all. */
  lemma UpdaterRegisteredOnce(actions: seq<Action>)
    ensures Dispatches(Execute(Initial, actions + [ClientConnected]).callbacks) == 1
    ensures Dispatches(Execute(Initial, actions + [ClientDisconnect]).callbacks) == 0
  {
    forall last | last in [ClientConnected, ClientDisconnect]
      ensures var s := Execute(Initial, actions + [last]);
              s.updaterSet == last.ClientConnected? && Dispatches(s.callbacks) == if s.updaterSet then 1 else 0
    {
      var all := actions + [last];
      RegistrySafety(all);
      assert all[..|all| - 1] == actions;
      var s := Execute(Initial, all);
      if s.updaterSet {
        var h := Handle(s.updaterCBID, UpdaterDispatch);
        assert h in s.callbacks;
        var at :| 0 <= at < |s.callbacks| && s.callbacks[at] == h;
        forall i | 0 <= i < |s.callbacks|
          ensures s.callbacks[i].owner == UpdaterDispatch <==> i == at
        {
          assert s.callbacks[i] in s.callbacks;
        }
        OneDispatch(s.callbacks, at);
      } else {
        forall i | 0 <= i < |s.callbacks|
          ensures s.callbacks[i].owner != UpdaterDispatch
        {
          assert s.callbacks[i] in s.callbacks;
        }
        NoDispatch(s.callbacks);
      }
    }
    assert ClientConnected in [ClientConnected, ClientDisconnect];
    assert ClientDisconnect in [ClientConnected, ClientDisconnect];
  }

  /** In every reachable state, whichever exit is open to a call, taking it removes exactly the callback
      the call added; and no exit is open to a call before its write has returned. */
  lemma CallRemovesItsOwn(actions: seq<Action>, k: nat, ending: Ending)
    requires MayEnd(Execute(Initial, actions), k, ending)
    ensures var s := Execute(Initial, actions);
            var t := Step(s, EndCall(k, ending));
            && k !in t.calls && |t.callbacks| == |s.callbacks| - 1
            && (forall h :: h in t.callbacks <==> h in s.callbacks && h != Handle(s.calls[k].handle, Call(k)))
            && (s.calls[k].phase.Failed? <==> ending == WriteFailed) && !s.calls[k].phase.Registered?
  {
    RegistrySafety(actions);
    var s := Execute(Initial, actions);
    var own := Handle(s.calls[k].handle, Call(k));
    assert own in s.callbacks;
    WithoutRemovesOne(s.callbacks, own, s.nextCBID);
    UniqueOwner(s, own);
  }

  /** A call can only end as done after its own handler accepted a frame that was dispatched while this
      very registration was in place. */
  lemma {:induction false} DoneWasDispatched(actions: seq<Action>, k: nat)
    requires k in Execute(Initial, actions).calls && Execute(Initial, actions).calls[k].done
    ensures exists i :: 0 <= i < |actions| && AcceptedAt(actions, i, k, Execute(Initial, actions).calls[k].handle)
  {
    var n := |actions| - 1;
    var before, last := actions[..n], actions[n];
    var s := Execute(Initial, before);
    if k in s.calls && s.calls[k].done {
      DoneWasDispatched(before, k);
      SameHandle(s, last, k);
      var i :| 0 <= i < n && AcceptedAt(before, i, k, s.calls[k].handle);
      assert before[..i] == actions[..i];
      assert AcceptedAt(actions, i, k, s.calls[k].handle);
    } else {
      FirstDone(s, last, k);
      assert AcceptedAt(actions, n, k, s.calls[k].handle);
    }
  }

  /** Action i dispatches a frame that call k accepts, with this handle registered. */
  ghost predicate AcceptedAt(actions: seq<Action>, i: nat, k: nat, handle: nat)
    requires i < |actions|
  {
    && actions[i].Dispatch? && k in actions[i].accepting
    && Handle(handle, Call(k)) in Execute(Initial, actions[..i]).callbacks
  }

  lemma SameHandle(s: State, a: Action, k: nat)
    requires k in s.calls && k in Step(s, a).calls
    ensures Step(s, a).calls[k].handle == s.calls[k].handle
  {
    hide Without;
  }

  lemma FirstDone(s: State, a: Action, k: nat)
    requires k in Step(s, a).calls && Step(s, a).calls[k].done && !(k in s.calls && s.calls[k].done)
    ensures a.Dispatch? && k in a.accepting && k in s.calls && Handle(s.calls[k].handle, Call(k)) in s.callbacks
    ensures Step(s, a).calls[k].handle == s.calls[k].handle
  {
    hide Without;
  }

  /** In every reachable state, a call in progress whose write succeeds and which begins to wait can end
      as done after the next frame its handler accepts, as lost after the loss of the current
      connection, and with its context after that has expired. */
  lemma CallCanEnd(actions: seq<Action>, k: nat)
    requires k in Execute(Initial, actions).calls && Execute(Initial, actions).calls[k].phase.Sent?
    ensures var s := Step(Execute(Initial, actions), Await(k));
            && MayEnd(Step(s, Dispatch({k})), k, Done)
            && MayEnd(Step(s, LoseLife(s.life)), k, Lost)
            && MayEnd(Step(s, Expire(k)), k, ContextDone)
  {
    RegistrySafety(actions);
    var s := Execute(Initial, actions);
    assert Handle(s.calls[k].handle, Call(k)) in s.callbacks;
  }

  /** And its write takes it there, or to the exit of a failed write. */
  lemma WriteLeadsOn(s: State, k: nat, ok: bool)
    requires k !in s.calls
    ensures var t := Step(Step(s, BeginCall(k)), WriteReturned(k, ok));
            if ok then k in t.calls && t.calls[k].phase.Sent? else MayEnd(t, k, WriteFailed)
  {
  }
}
