/** Request calls that pick their replies out of the shared frame stream by session id
    (app/klf200/command.go, limitation.go, scenes.go). A call's handler sees the frames dispatched
    while it is registered, until it reports completion. */
module Calls {
  import opened Bytes
  import opened Messages

  const COMMAND_ACCEPTED: byte := 1
  const SCENE_ACCEPTED: byte := 0
  const LIMITATION_REJECTED: byte := 0

  datatype Call =
    | CommandSend(sid: uint16, wait: bool)
    | StatusRequest(sid: uint16)
    | GetLimitation(sid: uint16)
    | SceneRun(sid: uint16, wait: bool)
    | SetLimitation(sid: uint16)

  /** The variables a handler closure captures. */
  datatype Captured = Captured(success: bool, result: Option<Frame>)

  const Fresh := Captured(false, None)

  /** Pending: the call ends with its connection, timeout or write error. */
  datatype CallResult = Pending | Refused | Succeeded(reply: Option<Frame>)

  // ---------- The handlers ----------

  /** One handler invocation: the new captured variables and whether the call is complete. */
  function Handle(call: Call, c: Captured, f: Frame): (Captured, bool) {
    match call
    case CommandSend(sid, wait) =>
      if f.CommandSendCfm? && f.session == sid then
        (if f.status == COMMAND_ACCEPTED then c.(success := true) else c, !wait)
      else (c, f.SessionFinishedNtf? && f.session == sid)
    case StatusRequest(sid) =>
      if f.StatusRequestNtf? && f.notification.sessionID == sid then (c.(result := Some(f)), true) else (c, false)
    case GetLimitation(sid) =>
      if f.LimitationStatusNtf? && f.session == sid then (c.(result := Some(f)), true) else (c, false)
    case SceneRun(sid, wait) =>
      if f.ActivateSceneCfm? && f.session == sid then
        (if f.status == SCENE_ACCEPTED then c.(success := true) else c, !wait)
      else (c, f.SessionFinishedNtf? && f.session == sid)
    case SetLimitation(_) =>
      if f.SetLimitationCfm? then
        (if f.status != LIMITATION_REJECTED then c.(success := true) else c, true)
      else (c, false)
  }

  function Run(call: Call, c: Captured, frames: seq<Frame>): (Captured, bool)
    decreases |frames|
  {
    if frames == [] then (c, false)
    else
      var (c', done) := Handle(call, c, frames[0]);
      if done then (c', true) else Run(call, c', frames[1..])
  }

  function Finish(call: Call, c: Captured, done: bool): CallResult {
    if !done then Pending
    else if call.StatusRequest? || call.GetLimitation? then
      if c.result.None? then Refused else Succeeded(c.result)
    else if c.success then Succeeded(None) else Refused
  }

  function Outcome(call: Call, frames: seq<Frame>): CallResult {
    var (c, done) := Run(call, Fresh, frames);
    Finish(call, c, done)
  }

  // ---------- The calls as they loop over the stream ----------

  method DoCommandSend(sid: uint16, waitForCompletion: bool, frames: seq<Frame>) returns (r: CallResult)
    ensures r == Outcome(CommandSend(sid, waitForCompletion), frames)
  {
    var success, done := false, false;
    ghost var call := CommandSend(sid, waitForCompletion);
    for i := 0 to |frames|
      invariant !done
      invariant Run(call, Fresh, frames) == Run(call, Captured(success, None), frames[i..])
    {
      match frames[i] {
        case CommandSendCfm(session, status) =>
          if session == sid {
            if status == COMMAND_ACCEPTED {
              success := true;
            }
            done := !waitForCompletion;
          }
        case SessionFinishedNtf(session) => done := session == sid;
        case _ =>
      }
      if done {
        return if success then Succeeded(None) else Refused;
      }
      assert frames[i..][1..] == frames[i + 1..];
    }
    r := Pending;
  }

  method DoStatusRequest(sid: uint16, frames: seq<Frame>) returns (r: CallResult)
    ensures r == Outcome(StatusRequest(sid), frames)
  {
    ghost var call := StatusRequest(sid);
    for i := 0 to |frames|
      invariant Run(call, Fresh, frames) == Run(call, Fresh, frames[i..])
    {
      match frames[i] {
        case StatusRequestCfm(_, _) =>
        case StatusRequestNtf(notification) =>
          if notification.sessionID == sid {
            return Succeeded(Some(frames[i]));
          }
        case _ =>
      }
      assert frames[i..][1..] == frames[i + 1..];
    }
    r := Pending;
  }

  method DoGetLimitation(sid: uint16, frames: seq<Frame>) returns (r: CallResult)
    ensures r == Outcome(GetLimitation(sid), frames)
  {
    ghost var call := GetLimitation(sid);
    for i := 0 to |frames|
      invariant Run(call, Fresh, frames) == Run(call, Fresh, frames[i..])
    {
      match frames[i] {
        case GetLimitationStatusCfm(_, _) =>
        case LimitationStatusNtf(session, _, _, _, _, _, _) =>
          if session == sid {
            return Succeeded(Some(frames[i]));
          }
        case _ =>
      }
      assert frames[i..][1..] == frames[i + 1..];
    }
    r := Pending;
  }

  method DoSceneRun(sid: uint16, waitForCompletion: bool, frames: seq<Frame>) returns (r: CallResult)
    ensures r == Outcome(SceneRun(sid, waitForCompletion), frames)
  {
    var accepted, done := false, false;
    ghost var call := SceneRun(sid, waitForCompletion);
    for i := 0 to |frames|
      invariant !done
      invariant Run(call, Fresh, frames) == Run(call, Captured(accepted, None), frames[i..])
    {
      match frames[i] {
        case ActivateSceneCfm(session, status) =>
          if session == sid {
            if status == SCENE_ACCEPTED {
              accepted := true;
            }
            done := !waitForCompletion;
          }
        case SessionFinishedNtf(session) => done := session == sid;
        case _ =>
      }
      if done {
        return if accepted then Succeeded(None) else Refused;
      }
      assert frames[i..][1..] == frames[i + 1..];
    }
    r := Pending;
  }

  // ---------- Non-interference ----------

  function SessionOf(f: Frame): Option<uint16> {
    match f
    case CommandSendCfm(session, _) => Some(session)
    case CommandRunStatusNtf(session, _, _, _, _) => Some(session)
    case CommandRemainingTimeNtf(session, _, _, _) => Some(session)
    case SessionFinishedNtf(session) => Some(session)
    case StatusRequestCfm(session, _) => Some(session)
    case StatusRequestNtf(n) => Some(n.sessionID)
    case SetLimitationCfm(session, _) => Some(session)
    case GetLimitationStatusCfm(session, _) => Some(session)
    case LimitationStatusNtf(session, _, _, _, _, _, _) => Some(session)
    case ActivateSceneCfm(session, _) => Some(session)
    case _ => None
  }

  /** The subsequence of frames carrying a session id. */
  function Own(frames: seq<Frame>, sid: uint16): seq<Frame> {
    if frames == [] then []
    else (if SessionOf(frames[0]) == Some(sid) then [frames[0]] else []) + Own(frames[1..], sid)
  }

  lemma {:induction false} RunOwn(call: Call, c: Captured, frames: seq<Frame>)
    requires !call.SetLimitation?
    ensures Run(call, c, frames) == Run(call, c, Own(frames, call.sid))
    decreases |frames|
  {
    if frames != [] {
      var (c', _) := Handle(call, c, frames[0]);
      RunOwn(call, c', frames[1..]);
      var rest := Own(frames[1..], call.sid);
      assert ([frames[0]] + rest)[1..] == rest;
      assert [] + rest == rest;
      if SessionOf(frames[0]) != Some(call.sid) {
        IgnoresOthers(call, c, frames[0]);
      }
    }
  }

  lemma IgnoresOthers(call: Call, c: Captured, f: Frame)
    requires !call.SetLimitation? && SessionOf(f) != Some(call.sid)
    ensures Handle(call, c, f) == (c, false)
  {
  }

  /** What a call other than SetLimitation returns depends only on the frames carrying its own
      session id. */
  lemma NonInterference(call: Call, frames: seq<Frame>)
    requires !call.SetLimitation?
    ensures Outcome(call, frames) == Outcome(call, Own(frames, call.sid))
  {
    RunOwn(call, Fresh, frames);
  }

  /** Some interleaving of two streams: each element of picks takes the next frame of a or of b. */
  ghost predicate Interleaves(picks: seq<bool>, a: seq<Frame>, b: seq<Frame>, merged: seq<Frame>)
    decreases |picks|
  {
    if picks == [] then a == [] && b == [] && merged == []
    else if merged == [] then false
    else if picks[0] then a != [] && merged[0] == a[0] && Interleaves(picks[1..], a[1..], b, merged[1..])
    else b != [] && merged[0] == b[0] && Interleaves(picks[1..], a, b[1..], merged[1..])
  }

  lemma {:induction false} OwnOfMerge(picks: seq<bool>, a: seq<Frame>, b: seq<Frame>, merged: seq<Frame>, sid: uint16)
    requires Interleaves(picks, a, b, merged)
    requires forall i :: 0 <= i < |b| ==> SessionOf(b[i]) != Some(sid)
    ensures Own(merged, sid) == Own(a, sid)
    decreases |picks|
  {
    if picks != [] {
      if picks[0] {
        OwnOfMerge(picks[1..], a[1..], b, merged[1..], sid);
      } else {
        OwnOfMerge(picks[1..], a, b[1..], merged[1..], sid);
      }
    }
  }

  lemma {:induction false} SwapMerge(picks: seq<bool>, a: seq<Frame>, b: seq<Frame>, merged: seq<Frame>)
    returns (swapped: seq<bool>)
    requires Interleaves(picks, a, b, merged)
    ensures Interleaves(swapped, b, a, merged)
    decreases |picks|
  {
    swapped := [];
    if picks != [] {
      var rest;
      if picks[0] {
        rest := SwapMerge(picks[1..], a[1..], b, merged[1..]);
      } else {
        rest := SwapMerge(picks[1..], a, b[1..], merged[1..]);
      }
      swapped := [!picks[0]] + rest;
      assert swapped[1..] == rest;
    }
  }

  /** Two calls with different ids, run over any interleaving of their two reply streams, each return
      what they would return alone. */
  lemma InterleavedCalls(x: Call, y: Call, picks: seq<bool>, a: seq<Frame>, b: seq<Frame>, merged: seq<Frame>)
    requires !x.SetLimitation? && !y.SetLimitation?
    requires Interleaves(picks, a, b, merged)
    requires forall i :: 0 <= i < |a| ==> SessionOf(a[i]) != Some(y.sid)
    requires forall i :: 0 <= i < |b| ==> SessionOf(b[i]) != Some(x.sid)
    ensures Outcome(x, merged) == Outcome(x, a) && Outcome(y, merged) == Outcome(y, b)
  {
    hide Outcome, Interleaves, Own;
    OwnOfMerge(picks, a, b, merged, x.sid);
    var swapped := SwapMerge(picks, a, b, merged);
    OwnOfMerge(swapped, b, a, merged, y.sid);
    NonInterference(x, merged);
    NonInterference(x, a);
    NonInterference(y, merged);
    NonInterference(y, b);
  }

  // ---------- What the outcomes mean ----------

  /** The call's own confirmation. */
  predicate Confirms(call: Call, f: Frame) {
    || (call.CommandSend? && f.CommandSendCfm? && f.session == call.sid)
    || (call.SceneRun? && f.ActivateSceneCfm? && f.session == call.sid)
  }

  /** Commands are accepted with status 1, scenes with status 0. */
  predicate Accepts(call: Call, f: Frame) {
    Confirms(call, f) && f.status == if call.CommandSend? then 1 else 0
  }

  /** A frame that ends the call: the confirmation unless completion is awaited, or the end of the
      session. */
  predicate Ends(call: Call, f: Frame) {
    (f.SessionFinishedNtf? && f.session == call.sid)
      || (Confirms(call, f) && (call.CommandSend? || call.SceneRun?) && !call.wait)
  }

  /** Position of the first frame satisfying Ends, or the length. */
  function FirstEnd(call: Call, frames: seq<Frame>): (t: nat)
    ensures t <= |frames|
    ensures forall i :: 0 <= i < t ==> !Ends(call, frames[i])
    ensures t < |frames| ==> Ends(call, frames[t])
  {
    if frames == [] || Ends(call, frames[0]) then 0 else
      var t := FirstEnd(call, frames[1..]);
      assert forall i :: 0 < i < t + 1 ==> frames[i] == frames[1..][i - 1];
      1 + t
  }

  lemma {:induction false} RunConfirmed(call: Call, c: Captured, frames: seq<Frame>)
    requires call.CommandSend? || call.SceneRun?
    ensures var (c', done) := Run(call, c, frames);
            var t := FirstEnd(call, frames);
            && (done <==> t < |frames|)
            && (done ==> (c'.success <==> c.success || exists i :: 0 <= i <= t && Accepts(call, frames[i])))
    decreases |frames|
  {
    if frames != [] {
      var (c1, done1) := Handle(call, c, frames[0]);
      assert c1.success <==> c.success || Accepts(call, frames[0]);
      assert done1 <==> Ends(call, frames[0]);
      if !done1 {
        var rest := frames[1..];
        RunConfirmed(call, c1, rest);
        var t := FirstEnd(call, rest);
        if t < |rest| {
          assert (exists i :: 0 <= i <= t + 1 && Accepts(call, frames[i]))
            <==> Accepts(call, frames[0]) || exists i :: 0 <= i <= t && Accepts(call, rest[i]) by {
            assert forall i :: 0 <= i <= t ==> rest[i] == frames[i + 1];
            forall i | 0 < i <= t + 1 && Accepts(call, frames[i])
              ensures Accepts(call, rest[i - 1])
            {
            }
          }
        }
      }
    }
  }

  /** CommandSend and Scene.Run return nil exactly when some frame ends the call and an accepting
      confirmation of its own came no later than the first such frame; they wait exactly as long as no
      frame ends them. */
  lemma AcceptedIff(call: Call, frames: seq<Frame>)
    requires call.CommandSend? || call.SceneRun?
    ensures Outcome(call, frames).Succeeded?
            <==> exists t, i :: 0 <= i <= t < |frames| && Ends(call, frames[t])
                                && (forall j :: 0 <= j < t ==> !Ends(call, frames[j]))
                                && Accepts(call, frames[i])
    ensures Outcome(call, frames) == Pending <==> forall t :: 0 <= t < |frames| ==> !Ends(call, frames[t])
    ensures Outcome(call, frames) in [Pending, Refused, Succeeded(None)]
  {
    RunConfirmed(call, Fresh, frames);
    var end := FirstEnd(call, frames);
    if t, i :| 0 <= i <= t < |frames| && Ends(call, frames[t])
               && (forall j :: 0 <= j < t ==> !Ends(call, frames[j])) && Accepts(call, frames[i]) {
      assert t == end;
    }
  }

  predicate Answers(call: Call, f: Frame) {
    || (call.StatusRequest? && f.StatusRequestNtf? && f.notification.sessionID == call.sid)
    || (call.GetLimitation? && f.LimitationStatusNtf? && f.session == call.sid)
  }

  lemma {:induction false} RunAnswered(call: Call, frames: seq<Frame>)
    requires call.StatusRequest? || call.GetLimitation?
    ensures var (c, done) := Run(call, Fresh, frames);
            && (!done ==> c == Fresh && forall i :: 0 <= i < |frames| ==> !Answers(call, frames[i]))
            && (done ==> exists t :: 0 <= t < |frames| && Answers(call, frames[t]) && c.result == Some(frames[t])
                                     && forall j :: 0 <= j < t ==> !Answers(call, frames[j]))
  {
    if frames != [] && !Answers(call, frames[0]) {
      RunAnswered(call, frames[1..]);
      var (c, done) := Run(call, Fresh, frames[1..]);
      if done {
        var t :| 0 <= t < |frames[1..]| && Answers(call, frames[1..][t]) && c.result == Some(frames[1..][t])
                 && forall j :: 0 <= j < t ==> !Answers(call, frames[1..][j]);
        assert frames[t + 1] == frames[1..][t];
        assert forall j :: 0 < j < t + 1 ==> frames[j] == frames[1..][j - 1];
      } else {
        assert forall j :: 0 < j < |frames| ==> frames[j] == frames[1..][j - 1];
      }
    }
  }

  /** StatusRequest and GetLimitation return the first own notification, whatever surrounds it. */
  lemma AnsweredIff(call: Call, frames: seq<Frame>, reply: Frame)
    requires call.StatusRequest? || call.GetLimitation?
    ensures Outcome(call, frames) == Succeeded(Some(reply))
            <==> exists t :: 0 <= t < |frames| && frames[t] == reply && Answers(call, reply)
                             && forall j :: 0 <= j < t ==> !Answers(call, frames[j])
    ensures Outcome(call, frames) == Pending <==> forall i :: 0 <= i < |frames| ==> !Answers(call, frames[i])
  {
    RunAnswered(call, frames);
  }

  // ---------- SetLimitation: no session check ----------

  /** Position of the first limitation confirmation of any session. */
  function FirstCfm(frames: seq<Frame>): (t: nat)
    ensures t <= |frames|
    ensures forall i :: 0 <= i < t ==> !frames[i].SetLimitationCfm?
    ensures t < |frames| ==> frames[t].SetLimitationCfm?
  {
    if frames == [] || frames[0].SetLimitationCfm? then 0 else
      var t := FirstCfm(frames[1..]);
      assert forall i :: 0 < i < t + 1 ==> frames[i] == frames[1..][i - 1];
      1 + t
  }

  lemma {:induction false} RunLimitation(sid: uint16, c: Captured, frames: seq<Frame>)
    ensures var (c', done) := Run(SetLimitation(sid), c, frames);
            var t := FirstCfm(frames);
            && (done <==> t < |frames|)
            && (done ==> c' == Handle(SetLimitation(sid), c, frames[t]).0)
  {
    if frames != [] && !frames[0].SetLimitationCfm? {
      RunLimitation(sid, c, frames[1..]);
    }
  }

  /** SetLimitation takes the verdict of the first limitation confirmation there is, rejected with
      status 0 and accepted with any other. */
  lemma LimitedIff(sid: uint16, frames: seq<Frame>)
    ensures var t := FirstCfm(frames);
            Outcome(SetLimitation(sid), frames)
            == if t == |frames| then Pending else if frames[t].status == 0 then Refused else Succeeded(None)
  {
    RunLimitation(sid, Fresh, frames);
  }

  lemma {:induction false} OwnAppend(a: seq<Frame>, b: seq<Frame>, sid: uint16)
    ensures Own(a + b, sid) == Own(a, sid) + Own(b, sid)
  {
    hide SessionOf;
    if a == [] {
      assert a + b == b;
    } else {
      assert (a + b)[1..] == a[1..] + b;
      OwnAppend(a[1..], b, sid);
      Assoc(if SessionOf(a[0]) == Some(sid) then [a[0]] else [], Own(a[1..], sid), Own(b, sid));
    }
  }

  lemma {:induction false} OwnHasNoCfm(frames: seq<Frame>, sid: uint16)
    requires forall i :: 0 <= i < |frames| ==> !frames[i].SetLimitationCfm?
    ensures forall i :: 0 <= i < |Own(frames, sid)| ==> !Own(frames, sid)[i].SetLimitationCfm?
  {
    if frames != [] {
      OwnHasNoCfm(frames[1..], sid);
    }
  }

  /** Before the first confirmation of any session the call is pending, with or without the frames
      of others. */
  lemma BeforeCfm(sid: uint16, frames: seq<Frame>)
    requires forall i :: 0 <= i < |frames| ==> !frames[i].SetLimitationCfm?
    ensures Outcome(SetLimitation(sid), frames) == Pending == Outcome(SetLimitation(sid), Own(frames, sid))
  {
    RunLimitation(sid, Fresh, frames);
    OwnHasNoCfm(frames, sid);
    RunLimitation(sid, Fresh, Own(frames, sid));
  }

  /** From the first confirmation on, its verdict is the call's, and it is the verdict the call would
      reach alone if the confirmation is its own. */
  lemma AfterCfm(sid: uint16, before: seq<Frame>, cfm: Frame, after: seq<Frame>)
    requires forall i :: 0 <= i < |before| ==> !before[i].SetLimitationCfm?
    requires cfm.SetLimitationCfm?
    ensures var call := SetLimitation(sid);
            var frames := before + [cfm] + after;
            var verdict := Finish(call, Handle(call, Fresh, cfm).0, true);
            && Outcome(call, frames) == verdict != Pending
            && (cfm.session == sid ==> Outcome(call, Own(frames, sid)) == verdict)
  {
    var frames := before + [cfm] + after;
    FirstCfmIs(frames, |before|);
    RunLimitation(sid, Fresh, frames);
    if cfm.session == sid {
      assert frames == before + ([cfm] + after);
      OwnAppend(before, [cfm] + after, sid);
      OwnHasNoCfm(before, sid);
      assert ([cfm] + after)[1..] == after;
      var own := Own(frames, sid);
      assert own == Own(before, sid) + ([cfm] + Own(after, sid));
      FirstCfmIs(own, |Own(before, sid)|);
      RunLimitation(sid, Fresh, own);
    }
  }

  lemma FirstCfmIs(frames: seq<Frame>, t: nat)
    requires t < |frames| && frames[t].SetLimitationCfm?
    requires forall i :: 0 <= i < t ==> !frames[i].SetLimitationCfm?
    ensures FirstCfm(frames) == t
  {
    var u := FirstCfm(frames);
    assert u <= t;
  }

  /** SetLimitation is free of interference at every moment of a stream if and only if the first
      limitation confirmation in the stream, if there is one, carries its own session id. */
  lemma SetLimitationIff(sid: uint16, frames: seq<Frame>)
    ensures var call := SetLimitation(sid);
            var t := FirstCfm(frames);
            (forall k :: 0 <= k <= |frames| ==> Outcome(call, frames[..k]) == Outcome(call, Own(frames[..k], sid)))
            <==> (t < |frames| ==> frames[t].session == sid)
  {
    hide Outcome, Own, Handle;
    var call := SetLimitation(sid);
    var t := FirstCfm(frames);
    forall k | 0 <= k <= t
      ensures Outcome(call, frames[..k]) == Outcome(call, Own(frames[..k], sid))
    {
      BeforeCfm(sid, frames[..k]);
    }
    if t < |frames| {
      forall k | t < k <= |frames| && frames[t].session == sid
        ensures Outcome(call, frames[..k]) == Outcome(call, Own(frames[..k], sid))
      {
        assert frames[..k] == frames[..t] + [frames[t]] + frames[t + 1..k];
        AfterCfm(sid, frames[..t], frames[t], frames[t + 1..k]);
      }
      if frames[t].session != sid {
        ForeignCfm(sid, frames[..t], frames[t]);
        assert frames[..t + 1] == frames[..t] + [frames[t]];
        assert Outcome(call, frames[..t + 1]) != Outcome(call, Own(frames[..t + 1], sid));
      }
    }
  }

  lemma ForeignCfm(sid: uint16, before: seq<Frame>, cfm: Frame)
    requires forall i :: 0 <= i < |before| ==> !before[i].SetLimitationCfm?
    requires cfm.SetLimitationCfm? && cfm.session != sid
    ensures var call := SetLimitation(sid);
            Outcome(call, before + [cfm]) != Pending == Outcome(call, Own(before + [cfm], sid))
  {
    hide Outcome, Handle;
    AfterCfm(sid, before, cfm, []);
    assert before + [cfm] + [] == before + [cfm];
    OwnAppend(before, [cfm], sid);
    assert Own([cfm], sid) == [];
    BeforeCfm(sid, before);
    assert Own(before, sid) + [] == Own(before, sid);
  }

  /** A confirmation addressed to session 2 completes, successfully, the call of session 1. */
  lemma SetLimitationInterferes()
    ensures var frames := [SetLimitationCfm(2, 1), SetLimitationCfm(1, LIMITATION_REJECTED)];
            Outcome(SetLimitation(1), frames) == Succeeded(None)
            && Outcome(SetLimitation(1), Own(frames, 1)) == Refused
  {
    var frames := [SetLimitationCfm(2, 1), SetLimitationCfm(1, LIMITATION_REJECTED)];
    assert frames[1..] == [frames[1]];
    assert frames[1..][1..] == [];
    assert Own(frames[1..], 1) == [frames[1]];
    assert Own(frames, 1) == [frames[1]];
  }
}
