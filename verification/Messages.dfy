/** The typed frames that the calls and the node updater look at, their command codes
    (app/klf200/protocol/const.go) and payload codecs, and the registry of all frame types. */
module Messages {
  import opened Bytes
  import opened Parameter
  import opened FrameCodec
  import NodeInfo
  import ReadLoop
  import SceneList
  import Status = StatusNotification

  const GW_GET_ALL_NODES_INFORMATION_NTF: Command := 0x0204
  const GW_NODE_STATE_POSITION_CHANGED_NTF: Command := 0x0211
  const GW_COMMAND_SEND_CFM: Command := 0x0301
  const GW_COMMAND_RUN_STATUS_NTF: Command := 0x0302
  const GW_COMMAND_REMAINING_TIME_NTF: Command := 0x0303
  const GW_SESSION_FINISHED_NTF: Command := 0x0304
  const GW_STATUS_REQUEST_CFM: Command := 0x0306
  const GW_STATUS_REQUEST_NTF: Command := 0x0307
  const GW_SET_LIMITATION_CFM: Command := 0x0311
  const GW_GET_LIMITATION_STATUS_CFM: Command := 0x0313
  const GW_LIMITATION_STATUS_NTF: Command := 0x0314
  const GW_GET_SCENE_LIST_CFM: Command := 0x040D
  const GW_GET_SCENE_LIST_NTF: Command := 0x040E
  const GW_ACTIVATE_SCENE_CFM: Command := 0x0413

  datatype Frame =
    | AllNodesInformationNtf(info: NodeInfo.NodeInfo)
    | NodeStatePositionChangedNtf(nodeID: byte, state: byte, currentPosition: uint16, target: uint16,
                                  fp1: uint16, fp2: uint16, fp3: uint16, fp4: uint16,
                                  remainingTime: uint16, timestamp: uint32)
    | CommandSendCfm(session: uint16, status: byte)
    | CommandRunStatusNtf(session: uint16, statusID: byte, indexID: byte, nodeParameter: byte, parameterValue: uint16)
    | CommandRemainingTimeNtf(session: uint16, indexID: byte, nodeParameter: byte, seconds: uint16)
    | SessionFinishedNtf(session: uint16)
    | StatusRequestCfm(session: uint16, status: byte)
    | StatusRequestNtf(notification: Status.Notification)
    | SetLimitationCfm(session: uint16, status: byte)
    | GetLimitationStatusCfm(session: uint16, data: byte)
    | LimitationStatusNtf(session: uint16, nodeID: byte, parameterID: byte, minValue: uint16, maxValue: uint16,
                          limitOriginator: byte, limitTime: byte)
    | SceneListCfm(countScenes: byte)
    | SceneListNtf(list: SceneList.SceneListNotification)
    | ActivateSceneCfm(session: uint16, status: byte)
    | Other(code: Command, raw: seq<byte>)  // any frame type none of the modelled code inspects

  function CommandOf(f: Frame): Command {
    match f
    case AllNodesInformationNtf(_) => GW_GET_ALL_NODES_INFORMATION_NTF
    case NodeStatePositionChangedNtf(_, _, _, _, _, _, _, _, _, _) => GW_NODE_STATE_POSITION_CHANGED_NTF
    case CommandSendCfm(_, _) => GW_COMMAND_SEND_CFM
    case CommandRunStatusNtf(_, _, _, _, _) => GW_COMMAND_RUN_STATUS_NTF
    case CommandRemainingTimeNtf(_, _, _, _) => GW_COMMAND_REMAINING_TIME_NTF
    case SessionFinishedNtf(_) => GW_SESSION_FINISHED_NTF
    case StatusRequestCfm(_, _) => GW_STATUS_REQUEST_CFM
    case StatusRequestNtf(_) => GW_STATUS_REQUEST_NTF
    case SetLimitationCfm(_, _) => GW_SET_LIMITATION_CFM
    case GetLimitationStatusCfm(_, _) => GW_GET_LIMITATION_STATUS_CFM
    case LimitationStatusNtf(_, _, _, _, _, _, _) => GW_LIMITATION_STATUS_NTF
    case SceneListCfm(_) => GW_GET_SCENE_LIST_CFM
    case SceneListNtf(_) => GW_GET_SCENE_LIST_NTF
    case ActivateSceneCfm(_, _) => GW_ACTIVATE_SCENE_CFM
    case Other(code, _) => code
  }

  function SessionAndByte(session: uint16, b: byte): seq<byte> {
    [Hi(session), Lo(session), b]
  }

  // ---------- Decoders ----------

  function DecodePositionChanged(p: seq<byte>): Option<Frame> {
    if |p| != 20 then None
    else Some(NodeStatePositionChangedNtf(
      p[0], p[1], FromRaw(U16(p[2], p[3])), FromRaw(U16(p[4], p[5])), FromRaw(U16(p[6], p[7])),
      FromRaw(U16(p[8], p[9])), FromRaw(U16(p[10], p[11])), FromRaw(U16(p[12], p[13])),
      U16(p[14], p[15]), U32(p[16..20])))
  }

  function DecodeRunStatus(p: seq<byte>): Option<Frame> {
    if |p| != 13 then None
    else Some(CommandRunStatusNtf(U16(p[0], p[1]), p[2], p[3], p[4], U16(p[5], p[6])))
  }

  function DecodeRemainingTime(p: seq<byte>): Option<Frame> {
    if |p| != 6 then None else Some(CommandRemainingTimeNtf(U16(p[0], p[1]), p[2], p[3], U16(p[4], p[5])))
  }

  function DecodeLimitationStatus(p: seq<byte>): Option<Frame> {
    if |p| != 10 then None
    else Some(LimitationStatusNtf(U16(p[0], p[1]), p[2], p[3], U16(p[4], p[5]), U16(p[6], p[7]), p[8], p[9]))
  }

  function Unmarshal(command: Command, p: seq<byte>): Option<Frame>
    requires command in Modelled
  {
    if command == GW_GET_ALL_NODES_INFORMATION_NTF then
      (match NodeInfo.Decode(p) case Ok(n) => Some(AllNodesInformationNtf(n)) case Err => None)
    else if command == GW_NODE_STATE_POSITION_CHANGED_NTF then DecodePositionChanged(p)
    else if command == GW_COMMAND_SEND_CFM then
      if |p| != 3 then None else Some(CommandSendCfm(U16(p[0], p[1]), p[2]))
    else if command == GW_COMMAND_RUN_STATUS_NTF then DecodeRunStatus(p)
    else if command == GW_COMMAND_REMAINING_TIME_NTF then DecodeRemainingTime(p)
    else if command == GW_SESSION_FINISHED_NTF then
      if |p| != 2 then None else Some(SessionFinishedNtf(U16(p[0], p[1])))
    else if command == GW_STATUS_REQUEST_CFM then
      if |p| != 3 then None else Some(StatusRequestCfm(U16(p[0], p[1]), p[2]))
    else if command == GW_STATUS_REQUEST_NTF then
      (match Status.Decode(p) case Ok(n) => Some(StatusRequestNtf(n)) case Err => None)
    else if command == GW_SET_LIMITATION_CFM then
      if |p| != 3 then None else Some(SetLimitationCfm(U16(p[0], p[1]), p[2]))
    else if command == GW_GET_LIMITATION_STATUS_CFM then
      if |p| != 3 then None else Some(GetLimitationStatusCfm(U16(p[0], p[1]), p[2]))
    else if command == GW_LIMITATION_STATUS_NTF then DecodeLimitationStatus(p)
    else if command == GW_GET_SCENE_LIST_CFM then
      if |p| != 1 then None else Some(SceneListCfm(p[0]))
    else if command == GW_GET_SCENE_LIST_NTF then
      (match SceneList.Decode(p) case Ok(l) => Some(SceneListNtf(l)) case Err => None)
    else
      if |p| != 3 then None else Some(ActivateSceneCfm(U16(p[1], p[2]), p[0]))
  }

  const Modelled: set<Command> := {
    GW_GET_ALL_NODES_INFORMATION_NTF, GW_NODE_STATE_POSITION_CHANGED_NTF, GW_COMMAND_SEND_CFM,
    GW_COMMAND_RUN_STATUS_NTF, GW_COMMAND_REMAINING_TIME_NTF, GW_SESSION_FINISHED_NTF,
    GW_STATUS_REQUEST_CFM, GW_STATUS_REQUEST_NTF, GW_SET_LIMITATION_CFM, GW_GET_LIMITATION_STATUS_CFM,
    GW_LIMITATION_STATUS_NTF, GW_GET_SCENE_LIST_CFM, GW_GET_SCENE_LIST_NTF, GW_ACTIVATE_SCENE_CFM
  }

  /** The frame types left out of the model, by command code: which payloads their decoder takes. */
  type Others = map<Command, seq<byte> -> bool>

  /** The registry filled by the init functions. */
  function FrameRegistry(others: Others): ReadLoop.Registry<Frame> {
    map c | c in others.Keys + Modelled ::
      if c in Modelled then (p: seq<byte>) => Unmarshal(c, p)
      else (p: seq<byte>) => if others[c](p) then Some(Other(c, p)) else None
  }

  // ---------- Encoders ----------

  /** MarshalPayload, for a given iteration order of the notification's parameter map; None where
      the source reports an error or panics. */
  function Marshal(f: Frame, order: seq<byte>): Option<seq<byte>>
    requires f.StatusRequestNtf? ==> Status.IsIteration(order, f.notification.parameterData)
  {
    match f
    case AllNodesInformationNtf(info) =>
      (match NodeInfo.Encode(info) case Payload(b) => Some(b) case _ => None)
    case NodeStatePositionChangedNtf(id, state, pos, target, fp1, fp2, fp3, fp4, time, stamp) =>
      Some([id, state] + ParameterBytes(pos) + ParameterBytes(target) + ParameterBytes(fp1) + ParameterBytes(fp2)
           + ParameterBytes(fp3) + ParameterBytes(fp4) + ParameterBytes(time) + BE32(stamp))
    case CommandSendCfm(session, status) => Some(SessionAndByte(session, status))
    case CommandRunStatusNtf(session, statusID, index, parameter, value) =>
      Some([Hi(session), Lo(session), statusID, index, parameter, Hi(value), Lo(value), 0, 0, 0, 0, 0, 0])
    case CommandRemainingTimeNtf(session, index, parameter, seconds) =>
      Some([Hi(session), Lo(session), index, parameter, Hi(seconds), Lo(seconds)])
    case SessionFinishedNtf(session) => Some([Hi(session), Lo(session)])
    case StatusRequestCfm(session, status) => Some(SessionAndByte(session, status))
    case StatusRequestNtf(n) => (match Status.Encode(n, order) case Payload(b) => Some(b) case Panic => None)
    case SetLimitationCfm(session, status) => Some(SessionAndByte(session, status))
    case GetLimitationStatusCfm(session, data) => Some(SessionAndByte(session, data))
    case LimitationStatusNtf(session, id, parameter, lo, hi, originator, time) =>
      Some([Hi(session), Lo(session), id, parameter, Hi(lo), Lo(lo), Hi(hi), Lo(hi), originator, time])
    case SceneListCfm(count) => Some([count])
    case SceneListNtf(l) => (match SceneList.Encode(l) case Ok(b) => Some(b) case Err => None)
    case ActivateSceneCfm(session, status) => Some([status, Hi(session), Lo(session)])
    case Other(_, raw) => Some(raw)
  }

  /** Frames the wire can represent: normal-form fields and a payload that fits one frame. */
  ghost predicate Representable(f: Frame, others: Others) {
    match f
    case AllNodesInformationNtf(info) => NodeInfo.Canonical(info)
    case NodeStatePositionChangedNtf(_, _, pos, target, fp1, fp2, fp3, fp4, _, _) =>
      && Normalised(pos) && Normalised(target)
      && Normalised(fp1) && Normalised(fp2) && Normalised(fp3) && Normalised(fp4)
    case StatusRequestNtf(n) =>
      if n.statusType == Status.REQUEST_MAIN_INFO then
        n.statusCount == 0 && n.parameterData == map[] && Normalised(n.targetPosition) && Normalised(n.currentPosition)
      else
        && n.targetPosition == n.currentPosition == n.remainingTime == 0
        && n.lastMasterExecutionAddress == 0 && n.lastCommandOriginator == 0
        && |n.parameterData| <= Status.MAX_ENTRIES
        && Status.AllNormalised(n.parameterData) && Status.CountFits(n.statusCount, n.parameterData)
    case SceneListNtf(l) => |l.scenes| <= 3 && SceneList.NamesFit(l.scenes) && SceneList.NamesNulFree(l.scenes)
    case Other(code, raw) => code !in Modelled && code in others && others[code](raw) && |raw| <= MAX_PAYLOAD
    case _ => true
  }

  // ---------- Round trip for every frame type ----------

  lemma SmallRoundTrip(f: Frame, order: seq<byte>)
    requires !f.AllNodesInformationNtf? && !f.StatusRequestNtf? && !f.SceneListNtf? && !f.Other?
    requires f.NodeStatePositionChangedNtf? ==>
               && Normalised(f.currentPosition) && Normalised(f.target)
               && Normalised(f.fp1) && Normalised(f.fp2) && Normalised(f.fp3) && Normalised(f.fp4)
    ensures CommandOf(f) in Modelled && Marshal(f, order).Some?
    ensures |Marshal(f, order).value| <= MAX_PAYLOAD
    ensures Unmarshal(CommandOf(f), Marshal(f, order).value) == Some(f)
  {
    hide Hi, Lo, U16, U32, BE32, FromRaw;
    forall w: uint16
      ensures U16(Hi(w), Lo(w)) == w
    {
      U16RoundTrip(w);
    }
    if f.NodeStatePositionChangedNtf? {
      U32RoundTrip(f.timestamp);
      assert Marshal(f, order).value[16..20] == BE32(f.timestamp);
    }
  }

  /** The command and the payload bytes of a frame with a fixed layout. */
  predicate OnWire(f: Frame, command: Command, p: seq<byte>)
    requires !f.AllNodesInformationNtf? && !f.StatusRequestNtf? && !f.SceneListNtf? && !f.Other?
  {
    match f
    case NodeStatePositionChangedNtf(id, state, pos, target, fp1, fp2, fp3, fp4, time, stamp) =>
      && command == 0x0211 && |p| == 20 && p[0] == id && p[1] == state
      && WordAt(p, 2) == pos && WordAt(p, 4) == target && WordAt(p, 6) == fp1 && WordAt(p, 8) == fp2
      && WordAt(p, 10) == fp3 && WordAt(p, 12) == fp4 && WordAt(p, 14) == time && LongAt(p, 16) == stamp
    case CommandSendCfm(session, status) =>
      command == 0x0301 && |p| == 3 && WordAt(p, 0) == session && p[2] == status
    case CommandRunStatusNtf(session, statusID, index, parameter, value) =>
      && command == 0x0302 && |p| == 13 && WordAt(p, 0) == session && p[2] == statusID && p[3] == index
      && p[4] == parameter && WordAt(p, 5) == value && forall i :: 7 <= i < 13 ==> p[i] == 0
    case CommandRemainingTimeNtf(session, index, parameter, seconds) =>
      && command == 0x0303 && |p| == 6 && WordAt(p, 0) == session && p[2] == index && p[3] == parameter
      && WordAt(p, 4) == seconds
    case SessionFinishedNtf(session) => command == 0x0304 && |p| == 2 && WordAt(p, 0) == session
    case StatusRequestCfm(session, status) =>
      command == 0x0306 && |p| == 3 && WordAt(p, 0) == session && p[2] == status
    case SetLimitationCfm(session, status) =>
      command == 0x0311 && |p| == 3 && WordAt(p, 0) == session && p[2] == status
    case GetLimitationStatusCfm(session, data) =>
      command == 0x0313 && |p| == 3 && WordAt(p, 0) == session && p[2] == data
    case LimitationStatusNtf(session, id, parameter, lo, hi, originator, time) =>
      && command == 0x0314 && |p| == 10 && WordAt(p, 0) == session && p[2] == id && p[3] == parameter
      && WordAt(p, 4) == lo && WordAt(p, 6) == hi && p[8] == originator && p[9] == time
    case SceneListCfm(count) => command == 0x040D && p == [count]
    case ActivateSceneCfm(session, status) =>
      command == 0x0413 && |p| == 3 && p[0] == status && WordAt(p, 1) == session
  }

  /** Every frame with a fixed layout has its own command code and stands on the wire at these offsets. */
  lemma SmallLayout(f: Frame, order: seq<byte>)
    requires !f.AllNodesInformationNtf? && !f.StatusRequestNtf? && !f.SceneListNtf? && !f.Other?
    ensures Marshal(f, order).Some? && OnWire(f, CommandOf(f), Marshal(f, order).value)
  {
    hide BE32;
    if f.NodeStatePositionChangedNtf? {
      var p := Marshal(f, order).value;
      assert p[16..20] == BE32(f.timestamp);
      LongOnWire(f.timestamp, p, 16);
    }
  }

  lemma UnmarshalNotification(p: seq<byte>)
    ensures Unmarshal(GW_STATUS_REQUEST_NTF, p) == match Status.Decode(p)
            case Ok(m) => Some(StatusRequestNtf(m)) case Err => None
  {
    hide Status.Decode;
  }

  lemma NotificationRoundTrip(f: Frame, order: seq<byte>, others: Others)
    requires f.StatusRequestNtf? && Status.IsIteration(order, f.notification.parameterData)
    requires Representable(f, others)
    ensures Marshal(f, order).Some? && |Marshal(f, order).value| <= MAX_PAYLOAD
    ensures Unmarshal(CommandOf(f), Marshal(f, order).value) == Some(f)
  {
    var n := f.notification;
    hide Status.Encode, Status.Decode, Status.AllNormalised, Status.CountFits, Normalised, Unmarshal;
    forall p: seq<byte>
      ensures Unmarshal(CommandOf(f), p) == match Status.Decode(p) case Ok(m) => Some(StatusRequestNtf(m))
              case Err => None
    {
      UnmarshalNotification(p);
    }
    if n.statusType == Status.REQUEST_MAIN_INFO {
      Status.MainInfoRoundTripIff(n, order);
    } else {
      Status.MapRoundTripIff(n, order);
    }
  }

  /** Every representable frame, in every iteration order of its map, is marshalled to a payload that
      fits one frame and is registered to decode to the same frame. */
  lemma FrameRoundTrip(f: Frame, order: seq<byte>, others: Others)
    requires f.StatusRequestNtf? ==> Status.IsIteration(order, f.notification.parameterData)
    requires Representable(f, others)
    ensures Marshal(f, order).Some? && |Marshal(f, order).value| <= MAX_PAYLOAD
    ensures CommandOf(f) in FrameRegistry(others)
    ensures FrameRegistry(others)[CommandOf(f)](Marshal(f, order).value) == Some(f)
  {
    match f
    case AllNodesInformationNtf(info) =>
      NodeInfo.NodeInfoRoundTripIff(info);
      NodeInfo.EncodedRegions(info);
    case StatusRequestNtf(_) => NotificationRoundTrip(f, order, others);
    case SceneListNtf(l) =>
      SceneList.SceneListRoundTripIff(l);
    case Other(_, _) =>
    case _ => SmallRoundTrip(f, order);
  }
}
