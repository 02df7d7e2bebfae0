/** The session id generator (app/klf200/session.go): a load / compare-and-swap retry loop shared by
    any number of goroutines. */
module Session {

  const MAX_SESSION_ID: nat := 65535

  function Next(last: nat): nat {
    if last + 1 > MAX_SESSION_ID then 1 else last + 1
  }

  /** The k-th id handed out from start value v; v itself for k == 0. */
  function NthId(v: nat, k: nat): (id: nat)
    ensures k > 0 ==> 1 <= id <= MAX_SESSION_ID
  {
    if k == 0 then v else (v + k - 1) % MAX_SESSION_ID + 1
  }

  lemma NthIdStep(v: nat, k: nat)
    requires v <= MAX_SESSION_ID
    ensures Next(NthId(v, k)) == NthId(v, k + 1)
  {
    if k > 0 {
      ModStep(v + k - 1);
    } else {
      ModSmall(v);
    }
  }

  lemma ModSmall(v: nat)
    requires v <= MAX_SESSION_ID
    ensures v % MAX_SESSION_ID == if v == MAX_SESSION_ID then 0 else v
  {
  }

  lemma ModStep(a: nat)
    ensures (a + 1) % MAX_SESSION_ID == if a % MAX_SESSION_ID == MAX_SESSION_ID - 1 then 0 else a % MAX_SESSION_ID + 1
  {
  }

  // ---------- One generator, many goroutines ----------

  type Thread = nat

  /** last, the values loaded by goroutines that have not tried their swap yet, and all ids returned
      so far, in the order of the successful swaps. */
  datatype State = State(last: nat, loaded: map<Thread, nat>, returned: seq<nat>)

  datatype Action = Load(t: Thread) | Swap(t: Thread)

  function Step(s: State, a: Action): State {
    match a
    case Load(t) => s.(loaded := s.loaded[t := s.last])
    case Swap(t) =>
      if t !in s.loaded then s
      else if s.loaded[t] != s.last then s.(loaded := s.loaded - {t})  // failed: load again
      else State(Next(s.last), s.loaded - {t}, s.returned + [Next(s.last)])
  }

  function Execute(s: State, actions: seq<Action>): State {
    if actions == [] then s else Step(Execute(s, actions[..|actions| - 1]), actions[|actions| - 1])
  }

  /** Under every interleaving of loads and swaps, also when a swap succeeds on a value that was
      loaded a full wrap ago, the k-th success returns the k-th id. */
  lemma {:induction false} EveryInterleavingCounts(v: nat, actions: seq<Action>)
    requires v <= MAX_SESSION_ID
    ensures var s := Execute(State(v, map[], []), actions);
            && s.last == NthId(v, |s.returned|)
            && forall k :: 0 <= k < |s.returned| ==> s.returned[k] == NthId(v, k + 1)
  {
    if actions != [] {
      var before := actions[..|actions| - 1];
      EveryInterleavingCounts(v, before);
      NthIdStep(v, |Execute(State(v, map[], []), before).returned|);
    }
  }

  lemma ModInjective(a: nat, b: nat)
    requires a < b < a + MAX_SESSION_ID
    ensures a % MAX_SESSION_ID != b % MAX_SESSION_ID
  {
    var qa, qb := a / MAX_SESSION_ID, b / MAX_SESSION_ID;
    assert a == qa * MAX_SESSION_ID + a % MAX_SESSION_ID;
    assert b == qb * MAX_SESSION_ID + b % MAX_SESSION_ID;
  }

  lemma ModPeriod(a: nat)
    ensures (a + MAX_SESSION_ID) % MAX_SESSION_ID == a % MAX_SESSION_ID
  {
  }

  /** In every run all ids lie in 1..65535 and any 65535 consecutive ones are pairwise distinct. */
  lemma ConsecutiveIdsDistinct(v: nat, actions: seq<Action>, i: nat, j: nat)
    requires v <= MAX_SESSION_ID
    requires i < j < |Execute(State(v, map[], []), actions).returned|
    ensures var ids := Execute(State(v, map[], []), actions).returned;
            && 1 <= ids[i] <= MAX_SESSION_ID
            && (j < i + MAX_SESSION_ID ==> ids[i] != ids[j])
            && (j == i + MAX_SESSION_ID ==> ids[i] == ids[j])
  {
    EveryInterleavingCounts(v, actions);
    if j < i + MAX_SESSION_ID {
      ModInjective(v + i, v + j);
    } else if j == i + MAX_SESSION_ID {
      ModPeriod(v + i);
    }
  }

  // ---------- The generator itself ----------

  class SessionIDGenerator {
    var last: nat

    constructor ()
      ensures last == 0
    {
      last := 0;
    }

    method SetSessionID(value: nat)
      requires value <= MAX_SESSION_ID
      modifies this
      ensures last == value
    {
      last := value;
    }

    method CompareAndSwap(old_: nat, new_: nat) returns (ok: bool)
      modifies this
      ensures ok == (old(last) == old_) && last == if ok then new_ else old(last)
    {
      ok := last == old_;
      if ok {
        last := new_;
      }
    }

    /** rivals[i] counts the ids other goroutines take between the i-th load of this call and its
        i-th swap; after that it is undisturbed. The id returned is the next in the common sequence
        after all the rival ids taken meanwhile. */
    method NewSessionID(rivals: seq<nat>) returns (id: nat, ghost meanwhile: nat)
      requires last <= MAX_SESSION_ID
      modifies this
      ensures id == last == NthId(old(last), meanwhile + 1)
      ensures 1 <= id <= MAX_SESSION_ID
    {
      var round := 0;
      meanwhile := 0;
      ghost var start := last;
      while true
        invariant start == old(last)
        invariant 0 <= round <= |rivals|
        invariant last == NthId(start, meanwhile)
        decreases |rivals| - round, if round < |rivals| then 1 else 0
      {
        var loaded := last;
        var next := loaded + 1;
        if next > MAX_SESSION_ID {
          next := 1;
        }
        NthIdStep(start, meanwhile);
        if round < |rivals| {
          meanwhile := meanwhile + rivals[round];
          last := NthIdFrom(last, rivals[round]);
          NthIdAdd(start, meanwhile - rivals[round], rivals[round]);
          round := round + 1;
          NthIdStep(start, meanwhile);
          var ok := CompareAndSwap(loaded, next);
          if ok {
            return next, meanwhile;
          }
        } else {
          var ok := CompareAndSwap(loaded, next);
          return next, meanwhile;
        }
      }
    }
  }

  /** n ids taken in a row by others. */
  function NthIdFrom(last: nat, n: nat): nat {
    if n == 0 then last else Next(NthIdFrom(last, n - 1))
  }

  lemma {:induction false} NthIdAdd(v: nat, k: nat, n: nat)
    requires v <= MAX_SESSION_ID
    ensures NthIdFrom(NthId(v, k), n) == NthId(v, k + n)
  {
    if n > 0 {
      NthIdAdd(v, k, n - 1);
      NthIdStep(v, k + n - 1);
    }
  }
}
