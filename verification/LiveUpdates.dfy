/** Live updates of node objects from notification frames (app/klf200/node_updater.go), and what the
    bridge publishes from them. */
module LiveUpdates {
  import opened Bytes
  import opened Collection
  import opened Messages
  import opened Parameter
  import CoverState
  import Status = StatusNotification

  const MP: byte := 0x00
  const FP3: byte := 0x03

  datatype Kind = Opening | Blind | Lightening | Generic

  const USER: byte := 1

  /** The limitation fields of an opening device. */
  datatype Limits = Limits(min: uint16, max: uint16, originator: byte, time: byte)

  const NoLimits := Limits(IGNORE, IGNORE, USER, 255)

  /** The updatable state of a node; the main parameter of a light is its intensity. */
  datatype Device = Device(kind: Kind, position: uint16, target: uint16, orientation: uint16, limits: Limits)

  class Node {
    const id: byte
    const kind: Kind
    var position: uint16
    var target: uint16
    var orientation: uint16
    var limits: Limits

    constructor (id: byte, kind: Kind, position: uint16, target: uint16)
      ensures this.id == id && View() == Device(kind, position, target, UNKNOWN, NoLimits)
    {
      this.id, this.kind := id, kind;
      this.position, this.target, this.orientation, this.limits := position, target, UNKNOWN, NoLimits;
    }

    function View(): Device
      reads this
    {
      Device(kind, position, target, orientation, limits)
    }
  }

  // ---------- Specification ----------

  /** Values the updater stores: known and at most MAX. */
  predicate Storable(p: uint16) { Known(p) && p <= MAX }

  function Store(old_: uint16, new_: uint16): uint16 { if Storable(new_) then new_ else old_ }

  function Reposition(d: Device, current: uint16, target: uint16): Device {
    match d.kind
    case Blind => d.(position := Store(d.position, current))
    case Opening => d.(position := Store(d.position, current), target := Store(d.target, target))
    case Lightening => d.(position := Store(d.position, current))
    case Generic => d
  }

  function Reorient(d: Device, n: Status.Notification): Device {
    if d.kind.Blind? && MP in n.parameterData && FP3 in n.parameterData then
      d.(position := Store(d.position, n.parameterData[MP]), orientation := Store(d.orientation, n.parameterData[FP3]))
    else d
  }

  /** Limitations are stored as they come, by opening devices and blinds only. */
  function Limit(d: Device, limits: Limits): Device {
    if d.kind.Opening? || d.kind.Blind? then d.(limits := limits) else d
  }

  /** What one frame does to the device with an id. */
  function Updated(d: Device, id: byte, f: Frame): Device {
    match f
    case AllNodesInformationNtf(info) =>
      if info.nodeID == id then Reposition(d, info.currentPosition, info.target) else d
    case NodeStatePositionChangedNtf(nodeID, _, current, target, _, _, _, _, _, _) =>
      if nodeID == id then Reposition(d, current, target) else d
    case StatusRequestNtf(n) => if n.nodeID == id then Reorient(d, n) else d
    case LimitationStatusNtf(_, nodeID, _, min, max, originator, time) =>
      if nodeID == id then Limit(d, Limits(min, max, originator, time)) else d
    case _ => d
  }

  function UpdatedAll(d: Device, id: byte, frames: seq<Frame>): Device
    decreases |frames|
  {
    if frames == [] then d else UpdatedAll(Updated(d, id, frames[0]), id, frames[1..])
  }

  // ---------- The updater ----------

  class NodeUpdater {
    const nodes: Items<Node>

    constructor (nodes: Items<Node>)
      ensures this.nodes == nodes
    {
      this.nodes := nodes;
    }

    /** The node collection holds each node object once, under its own id. */
    ghost predicate Valid()
      reads nodes
    {
      && UniqueIds(nodes.items)
      && (forall i :: 0 <= i < |nodes.items| ==> nodes.items[i].id == nodes.items[i].value.id as int)
      && (forall i, j :: 0 <= i < j < |nodes.items| ==> nodes.items[i].value != nodes.items[j].value)
    }

    ghost function Objects(): set<Node>
      reads nodes
    {
      set i | 0 <= i < |nodes.items| :: nodes.items[i].value
    }

    method ProcessPositionFrame(nodeID: byte, currentPosition: uint16, target: uint16)
      requires Valid()
      modifies Objects()
      ensures forall n :: n in Objects() ==>
                n.View() == if n.id == nodeID then Reposition(old(n.View()), currentPosition, target) else old(n.View())
    {
      var found := nodes.ByID(nodeID as int);
      if found.None? {
        return;
      }
      var node := found.value;
      match node.kind {
        case Blind =>
          if Known(currentPosition) && currentPosition <= MAX {
            node.position := currentPosition;
          }
        case Opening =>
          if Known(currentPosition) && currentPosition <= MAX {
            node.position := currentPosition;
          }
          if Known(target) && target <= MAX {
            node.target := target;
          }
        case Lightening =>
          if Known(currentPosition) && currentPosition <= MAX {
            node.position := currentPosition;
          }
        case Generic =>
      }
    }

    method ProcessStatusRequestNotification(n: Status.Notification)
      requires Valid()
      modifies Objects()
      ensures forall node :: node in Objects() ==>
                node.View() == if node.id == n.nodeID then Reorient(old(node.View()), n) else old(node.View())
    {
      var found := nodes.ByID(n.nodeID as int);
      if found.None? || !found.value.kind.Blind? {
        return;
      }
      var blind := found.value;
      if MP !in n.parameterData || FP3 !in n.parameterData {
        return;
      }
      var position, orientation := n.parameterData[MP], n.parameterData[FP3];
      if Known(position) && position <= MAX {
        blind.position := position;
      }
      if Known(orientation) && orientation <= MAX {
        blind.orientation := orientation;
      }
    }

    method ProcessLimitationStatusNotification(nodeID: byte, limits: Limits)
      requires Valid()
      modifies Objects()
      ensures forall n :: n in Objects() ==>
                n.View() == if n.id == nodeID then Limit(old(n.View()), limits) else old(n.View())
    {
      var found := nodes.ByID(nodeID as int);
      if found.None? {
        return;
      }
      var node := found.value;
      if node.kind.Opening? || node.kind.Blind? {
        node.limits := limits;
      }
    }

    method ProcessFrame(f: Frame)
      requires Valid()
      modifies Objects()
      ensures forall n :: n in Objects() ==> n.View() == Updated(old(n.View()), n.id, f)
    {
      match f {
        case AllNodesInformationNtf(info) => ProcessPositionFrame(info.nodeID, info.currentPosition, info.target);
        case NodeStatePositionChangedNtf(nodeID, _, current, target, _, _, _, _, _, _) =>
          ProcessPositionFrame(nodeID, current, target);
        case StatusRequestNtf(n) => ProcessStatusRequestNotification(n);
        case LimitationStatusNtf(_, nodeID, _, min, max, originator, time) =>
          ProcessLimitationStatusNotification(nodeID, Limits(min, max, originator, time));
        case _ =>
      }
    }

    method ProcessFrames(frames: seq<Frame>)
      requires Valid()
      modifies Objects()
      ensures forall n :: n in Objects() ==> n.View() == UpdatedAll(old(n.View()), n.id, frames)
    {
      for i := 0 to |frames|
        invariant forall n :: n in Objects() ==>
                    UpdatedAll(n.View(), n.id, frames[i..]) == UpdatedAll(old(n.View()), n.id, frames)
      {
        assert frames[i..][1..] == frames[i + 1..];
        ProcessFrame(frames[i]);
      }
    }
  }

  // ---------- What a device shows after any run ----------

  /** The position and target a frame reports for a node. */
  function Report(f: Frame, id: byte): Option<(uint16, uint16)> {
    match f
    case AllNodesInformationNtf(info) =>
      if info.nodeID == id then Some((info.currentPosition, info.target)) else None
    case NodeStatePositionChangedNtf(nodeID, _, current, target, _, _, _, _, _, _) =>
      if nodeID == id then Some((current, target)) else None
    case _ => None
  }

  function Reports(frames: seq<Frame>, id: byte): seq<(uint16, uint16)> {
    if frames == [] then []
    else (match Report(frames[0], id) case Some(r) => [r] case None => []) + Reports(frames[1..], id)
  }

  function Positions(reports: seq<(uint16, uint16)>): (p: seq<uint16>)
    ensures |p| == |reports| && forall i :: 0 <= i < |p| ==> p[i] == reports[i].0
  {
    seq(|reports|, i requires 0 <= i < |reports| => reports[i].0)
  }

  function Targets(reports: seq<(uint16, uint16)>): (p: seq<uint16>)
    ensures |p| == |reports| && forall i :: 0 <= i < |p| ==> p[i] == reports[i].1
  {
    seq(|reports|, i requires 0 <= i < |reports| => reports[i].1)
  }

  /** v is the last value at or below MAX in a list of reports, or the initial value if there is none. */
  predicate IsLastValid(v: uint16, reports: seq<uint16>, initial: uint16) {
    || (v == initial && forall i :: 0 <= i < |reports| ==> reports[i] > MAX)
    || exists i :: 0 <= i < |reports| && reports[i] == v <= MAX && forall j :: i < j < |reports| ==> reports[j] > MAX
  }

  lemma LastValidStep(v: uint16, head: uint16, rest: seq<uint16>, initial: uint16)
    requires IsLastValid(v, rest, Store(initial, head))
    ensures IsLastValid(v, [head] + rest, initial)
  {
    var all := [head] + rest;
    assert forall i :: 0 <= i < |rest| ==> all[i + 1] == rest[i];
    if i :| 0 <= i < |rest| && rest[i] == v <= MAX && forall j :: i < j < |rest| ==> rest[j] > MAX {
      assert all[i + 1] == v;
      assert forall j :: i + 1 < j < |all| ==> all[j] == rest[j - 1];
    } else {
      assert forall j :: 0 < j < |all| ==> all[j] == rest[j - 1] && all[j] > MAX;
      assert all[0] == head;
    }
  }

  /** For every inbound frame sequence, the position and the target of an opening device other than a
      blind are each the last value at or below 0xC800 reported for its node, or the initial one. */
  lemma {:induction false} OpeningShowsLastValid(d: Device, id: byte, frames: seq<Frame>)
    requires d.kind == Opening
    ensures var e, reports := UpdatedAll(d, id, frames), Reports(frames, id);
            && e.kind == Opening
            && IsLastValid(e.position, Positions(reports), d.position)
            && IsLastValid(e.target, Targets(reports), d.target)
    decreases |frames|
  {
    hide Report, Updated, IsLastValid;
    if frames == [] {
      NoReports(d.position);
      NoReports(d.target);
      assert Positions([]) == [] && Targets([]) == [];
    } else {
      UpdatedByReport(d, id, frames[0]);
      OpeningShowsLastValid(Updated(d, id, frames[0]), id, frames[1..]);
      var e, rest := UpdatedAll(d, id, frames), Reports(frames[1..], id);
      match Report(frames[0], id)
      case None => assert [] + rest == rest;
      case Some(r) =>
        assert Positions([r] + rest) == [r.0] + Positions(rest);
        assert Targets([r] + rest) == [r.1] + Targets(rest);
        LastValidStep(e.position, r.0, Positions(rest), d.position);
        LastValidStep(e.target, r.1, Targets(rest), d.target);
    }
  }

  lemma NoReports(initial: uint16)
    ensures IsLastValid(initial, [], initial)
  {
  }

  lemma UpdatedByReport(d: Device, id: byte, f: Frame)
    requires d.kind == Opening
    ensures var e := Updated(d, id, f);
            e == match Report(f, id)
                 case None => d.(limits := e.limits)
                 case Some(r) => d.(position := Store(d.position, r.0), target := Store(d.target, r.1))
  {
  }

  /** A light follows the reported positions as its intensity and keeps the rest; a node of any other
      kind the updater does not know keeps everything. */
  lemma {:induction false} LightShowsLastValid(d: Device, id: byte, frames: seq<Frame>)
    requires d.kind == Lightening || d.kind == Generic
    ensures var e := UpdatedAll(d, id, frames);
            && e == d.(position := e.position)
            && (d.kind == Lightening ==> IsLastValid(e.position, Positions(Reports(frames, id)), d.position))
            && (d.kind == Generic ==> e == d)
    decreases |frames|
  {
    hide Report, Updated, IsLastValid;
    if frames == [] {
      NoReports(d.position);
      assert Positions([]) == [];
    } else {
      LightByReport(d, id, frames[0]);
      LightShowsLastValid(Updated(d, id, frames[0]), id, frames[1..]);
      var e, rest := UpdatedAll(d, id, frames), Reports(frames[1..], id);
      match Report(frames[0], id)
      case None => assert [] + rest == rest;
      case Some(r) =>
        assert Positions([r] + rest) == [r.0] + Positions(rest);
        if d.kind == Lightening {
          LastValidStep(e.position, r.0, Positions(rest), d.position);
        }
    }
  }

  lemma LightByReport(d: Device, id: byte, f: Frame)
    requires d.kind == Lightening || d.kind == Generic
    ensures Updated(d, id, f) == match Report(f, id)
            case None => d
            case Some(r) => if d.kind == Generic then d else d.(position := Store(d.position, r.0))
  {
  }

  /** What a status notification reports of a blind: position and orientation, if it holds both. */
  function StatusReport(f: Frame, id: byte): Option<(uint16, uint16)> {
    match f
    case StatusRequestNtf(n) =>
      if n.nodeID == id && 0x00 in n.parameterData && 0x03 in n.parameterData then
        Some((n.parameterData[0x00], n.parameterData[0x03]))
      else None
    case _ => None
  }

  function BlindPositions(frames: seq<Frame>, id: byte): seq<uint16> {
    if frames == [] then []
    else
      (match Report(frames[0], id) case Some(r) => [r.0] case None => [])
      + (match StatusReport(frames[0], id) case Some(r) => [r.0] case None => [])
      + BlindPositions(frames[1..], id)
  }

  function BlindOrientations(frames: seq<Frame>, id: byte): seq<uint16> {
    if frames == [] then []
    else (match StatusReport(frames[0], id) case Some(r) => [r.1] case None => []) + BlindOrientations(frames[1..], id)
  }

  /** The position of a blind is the last valid one from position frames and complete status
      notifications together, its orientation the last valid one from the latter; its target never
      changes. */
  lemma {:induction false} BlindShowsLastValid(d: Device, id: byte, frames: seq<Frame>)
    requires d.kind == Blind
    ensures var e := UpdatedAll(d, id, frames);
            && e.kind == Blind && e.target == d.target
            && IsLastValid(e.position, BlindPositions(frames, id), d.position)
            && IsLastValid(e.orientation, BlindOrientations(frames, id), d.orientation)
    decreases |frames|
  {
    hide Report, StatusReport, Updated, IsLastValid;
    if frames == [] {
      NoReports(d.position);
      NoReports(d.orientation);
    } else {
      BlindByReport(d, id, frames[0]);
      BlindShowsLastValid(Updated(d, id, frames[0]), id, frames[1..]);
      var e := UpdatedAll(d, id, frames);
      var positions, orientations := BlindPositions(frames[1..], id), BlindOrientations(frames[1..], id);
      if Report(frames[0], id).Some? {
        var r := Report(frames[0], id).value;
        assert [r.0] + [] + positions == [r.0] + positions;
        assert [] + orientations == orientations;
        LastValidStep(e.position, r.0, positions, d.position);
      } else if StatusReport(frames[0], id).Some? {
        var r := StatusReport(frames[0], id).value;
        assert [] + [r.0] + positions == [r.0] + positions;
        LastValidStep(e.position, r.0, positions, d.position);
        LastValidStep(e.orientation, r.1, orientations, d.orientation);
      } else {
        assert [] + [] + positions == positions && [] + orientations == orientations;
      }
    }
  }

  lemma BlindByReport(d: Device, id: byte, f: Frame)
    requires d.kind == Blind
    ensures Report(f, id).Some? ==> StatusReport(f, id).None?
    ensures var e := Updated(d, id, f);
            && e.kind == Blind && e.target == d.target
            && e.position == (match Report(f, id)
                              case Some(r) => Store(d.position, r.0)
                              case None => match StatusReport(f, id)
                                           case Some(r) => Store(d.position, r.0)
                                           case None => d.position)
            && e.orientation == match StatusReport(f, id)
                                case Some(r) => Store(d.orientation, r.1)
                                case None => d.orientation
  {
  }

  predicate Concerns(f: Frame, id: byte) {
    match f
    case AllNodesInformationNtf(info) => info.nodeID == id
    case NodeStatePositionChangedNtf(nodeID, _, _, _, _, _, _, _, _, _) => nodeID == id
    case StatusRequestNtf(n) => n.nodeID == id
    case LimitationStatusNtf(_, nodeID, _, _, _, _, _) => nodeID == id
    case _ => false
  }

  function Concerning(frames: seq<Frame>, id: byte): seq<Frame> {
    if frames == [] then []
    else (if Concerns(frames[0], id) then [frames[0]] else []) + Concerning(frames[1..], id)
  }

  /** Frames for other nodes change nothing, whatever the kind of node. */
  lemma {:induction false} OtherNodesIrrelevant(d: Device, id: byte, frames: seq<Frame>)
    ensures UpdatedAll(d, id, frames) == UpdatedAll(d, id, Concerning(frames, id))
    decreases |frames|
  {
    if frames != [] {
      var rest := Concerning(frames[1..], id);
      OtherNodesIrrelevant(Updated(d, id, frames[0]), id, frames[1..]);
      if Concerns(frames[0], id) {
        assert ([frames[0]] + rest)[1..] == rest;
      } else {
        assert [] + rest == rest;
      }
    }
  }

  /** What the cover of a device publishes (app/bridge/cover.go updateCover). */
  function Published(d: Device, inverted: bool): (int, CoverState.State) {
    CoverState.Publish(PositionPercent(d.position), PositionPercent(d.target), inverted)
  }

  /** The limitations a stream reports for a node. */
  function LimitReports(frames: seq<Frame>, id: byte): seq<Limits> {
    if frames == [] then []
    else
      (match frames[0]
       case LimitationStatusNtf(_, nodeID, _, min, max, originator, time) =>
         if nodeID == id then [Limits(min, max, originator, time)] else []
       case _ => [])
      + LimitReports(frames[1..], id)
  }

  /** The limitations of an opening device or blind are the last reported ones, or the initial ones; of
      any other node they never change. */
  lemma {:induction false} LimitsShowLast(d: Device, id: byte, frames: seq<Frame>)
    ensures var reports := LimitReports(frames, id);
            UpdatedAll(d, id, frames).limits
            == if (d.kind.Opening? || d.kind.Blind?) && reports != [] then reports[|reports| - 1] else d.limits
    decreases |frames|
  {
    if frames != [] {
      LimitsShowLast(Updated(d, id, frames[0]), id, frames[1..]);
      assert Updated(d, id, frames[0]).kind == d.kind;
    }
  }

  /** After any stream, the cover publishes the percentage of the stored position, or 0 if that has
      none; it reports opening or closing exactly when the stored target has a percentage on the open or
      the closed side of it, and otherwise closed exactly at the closed end. A device that has reported a
      valid position or target stores a valid one, and stored values in normal form have a percentage
      exactly when they are valid. */
  lemma PublishedAfterRun(d: Device, id: byte, frames: seq<Frame>, inverted: bool)
    requires d.kind == Opening
    ensures var e := UpdatedAll(d, id, frames);
            var (position, state) := Published(e, inverted);
            var target := PositionPercent(e.target);
            && 0 <= position <= 100
            && position == (if HasPercent(e.position) then PositionPercent(e.position) else 0)
            && (state == CoverState.Opening <==>
                HasPercent(e.target) && (if inverted then target > position else target < position))
            && (state == CoverState.Closing <==>
                HasPercent(e.target) && (if inverted then target < position else target > position))
            && (state == CoverState.Closed <==>
                !CoverState.Moving(state) && position == (if inverted then 0 else 100))
    ensures var e := UpdatedAll(d, id, frames);
            && ((exists p :: p in Positions(Reports(frames, id)) && p <= MAX) ==> e.position <= MAX)
            && ((exists p :: p in Targets(Reports(frames, id)) && p <= MAX) ==> e.target <= MAX)
            && (Normalised(e.position) ==> (HasPercent(e.position) <==> e.position <= MAX))
            && (Normalised(e.target) ==> (HasPercent(e.target) <==> e.target <= MAX))
  {
    hide PositionPercent, Normalised;
    OpeningShowsLastValid(d, id, frames);
    var e := UpdatedAll(d, id, frames);
    CoverState.PublishedState(PositionPercent(e.position), PositionPercent(e.target), inverted);
    PercentRoundTrip(0, e.position);
    PercentRoundTrip(0, e.target);
  }

  predicate HasPercent(p: uint16) {
    0 <= PositionPercent(p) <= 100
  }
}
