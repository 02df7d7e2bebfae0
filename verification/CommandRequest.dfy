/** Building GW_COMMAND_SEND_REQ and GW_STATUS_REQUEST_REQ (app/klf200/command.go and
    app/klf200/protocol/frame_commands.go): functional-parameter indicators, slots and node arrays. */
module CommandRequest {
  import opened Bytes
  import opened Names
  import opened Parameter

  const MAX_NODES := 20

  // ---------- Functional parameter indicators ----------

  /** The presence of parameters base+1 .. base+n, read as a binary number. */
  function Presence(fps: map<int, uint16>, base: int, n: nat): (v: nat)
    ensures v < Pow2(n)
  {
    if n == 0 then 0 else 2 * Presence(fps, base, n - 1) + if base + n in fps then 1 else 0
  }

  lemma {:induction false} PresenceBit(fps: map<int, uint16>, base: int, n: nat, k: nat)
    requires k < n
    ensures Bit(Presence(fps, base, n), k) <==> base + n - k in fps
  {
    assert Presence(fps, base, n) / 2 == Presence(fps, base, n - 1);
    if k > 0 {
      PresenceBit(fps, base, n - 1, k - 1);
    }
  }

  lemma AddBit(v: nat, b: nat, k: nat)
    requires b <= 1
    ensures v * Pow2(k + 1) + b * Pow2(k) == (2 * v + b) * Pow2(k)
  {
    assert Pow2(k + 1) == 2 * Pow2(k);
    assert v * (2 * Pow2(k)) == (2 * v) * Pow2(k);
  }

  type Slots = s: seq<uint16> | |s| == 16 witness seq(16, _ => 0)

  /** The loop of CommandSend over fp1..fp16. Keys outside 1..16 are ignored; bit k of the first
      indicator stands for parameter 8 - k, bit k of the second for parameter 16 - k. */
  method Indicators(fps: map<int, uint16>) returns (fpi1: byte, fpi2: byte, slots: Slots)
    ensures forall k :: 0 <= k < 8 ==> (Bit(fpi1, k) <==> 8 - k in fps)
    ensures forall k :: 0 <= k < 8 ==> (Bit(fpi2, k) <==> 16 - k in fps)
    ensures forall j :: 0 <= j < 16 ==> slots[j] == SlotValue(fps, j)
  {
    hide Bit, Pow2, Presence;
    PresenceStart(fps);
    var v1: nat, v2: nat := 0, 0;
    slots := seq(16, _ => 0);
    var i := 1;
    while i <= 16
      invariant 1 <= i <= 17
      invariant v1 == if i < 9 then Presence(fps, 0, i - 1) * Pow2(9 - i) else Presence(fps, 0, 8)
      invariant v2 == if i < 9 then 0 else Presence(fps, 8, i - 9) * Pow2(17 - i)
      invariant forall j :: 0 <= j < 16 ==> slots[j] == if j < i - 1 then SlotValue(fps, j) else 0
    {
      if i < 9 {
        NextBit(fps, 0, i - 1, 8 - i);
      } else {
        NextBit(fps, 8, i - 9, 16 - i);
      }
      if i in fps {
        slots := slots[i - 1 := fps[i]];
        if i < 9 {
          v1 := v1 + Pow2(8 - i);
        } else {
          v2 := v2 + Pow2(16 - i);
        }
      }
      i := i + 1;
    }
    PresenceBits(fps, 0);
    PresenceBits(fps, 8);
    fpi1, fpi2 := v1, v2;
  }

  function SlotValue(fps: map<int, uint16>, j: nat): uint16 {
    if j + 1 in fps then fps[j + 1] else 0
  }

  lemma PresenceStart(fps: map<int, uint16>)
    ensures Presence(fps, 0, 0) == Presence(fps, 8, 0) == 0 && Pow2(0) == 1
  {
  }

  lemma NextBit(fps: map<int, uint16>, base: int, n: nat, k: nat)
    ensures Presence(fps, base, n) * Pow2(k + 1) + (if base + n + 1 in fps then Pow2(k) else 0)
            == Presence(fps, base, n + 1) * Pow2(k)
    ensures k == 0 ==> Presence(fps, base, n + 1) * Pow2(k) == Presence(fps, base, n + 1)
  {
    AddBit(Presence(fps, base, n), if base + n + 1 in fps then 1 else 0, k);
  }

  lemma PresenceBits(fps: map<int, uint16>, base: int)
    ensures Presence(fps, base, 8) < 0x100
    ensures forall k :: 0 <= k < 8 ==> (Bit(Presence(fps, base, 8), k) <==> base + 8 - k in fps)
    ensures Presence(fps, base, 8) * Pow2(0) == Presence(fps, base, 8)
  {
    assert Pow2(8) == 256;
    forall k | 0 <= k < 8
      ensures Bit(Presence(fps, base, 8), k) <==> base + 8 - k in fps
    {
      PresenceBit(fps, base, 8, k);
    }
  }

  // ---------- Node arrays ----------

  function NodeArray(ids: seq<byte>): (b: seq<byte>)
    requires |ids| <= MAX_NODES
    ensures |b| == 21
  {
    [|ids|] + ids + Padding(MAX_NODES - |ids|)
  }

  /** The decoder rebuilds a run of consecutive ids from the first one. */
  function ReadNodeArray(b: seq<byte>): (r: Result<seq<byte>>)
    requires |b| == 21
    ensures r.Ok? ==> |r.value| == b[0] as int
  {
    if b[0] as int > MAX_NODES then Err
    else Ok(seq(b[0] as int, i requires 0 <= i => (b[1] as int + i) % 0x100))
  }

  /** Ids that are consecutive modulo 256. */
  predicate Consecutive(ids: seq<byte>) {
    forall i :: 0 <= i < |ids| ==> ids[i] as int == (ids[0] as int + i) % 0x100
  }

  lemma NodeArrayRoundTripIff(ids: seq<byte>)
    requires |ids| <= MAX_NODES
    ensures ReadNodeArray(NodeArray(ids)) == Ok(ids) <==> Consecutive(ids)
  {
    var b := NodeArray(ids);
    var back := ReadNodeArray(b).value;
    if ids != [] {
      assert b[1] == ids[0];
      assert forall i :: 0 <= i < |ids| ==> back[i] as int == (ids[0] as int + i) % 0x100;
      if Consecutive(ids) {
        assert back == ids;
      }
    }
  }

  // ---------- GW_STATUS_REQUEST_REQ ----------

  datatype StatusRequestReq = StatusRequestReq(sessionID: uint16, nodeIDs: seq<byte>, statusType: byte,
           fpi1: byte, fpi2: byte)

  /** StatusTypeRequestCurrentPosition. */
  const CURRENT_POSITION: byte := 1

  function EncodeStatusRequest(f: StatusRequestReq): Result<seq<byte>> {
    if |f.nodeIDs| > MAX_NODES then Err
    else Ok([Hi(f.sessionID), Lo(f.sessionID)] + NodeArray(f.nodeIDs) + [f.statusType, f.fpi1, f.fpi2])
  }

  function DecodeStatusRequest(p: seq<byte>): Result<StatusRequestReq> {
    if |p| != 26 then Err
    else match ReadNodeArray(p[2..23])
         case Err => Err
         case Ok(ids) => Ok(StatusRequestReq(U16(p[0], p[1]), ids, p[23], p[24], p[25]))
  }

  /** What StatusRequest puts on the wire: one node, its current position, parameters 1 to 7. */
  method StatusPayload(sid: uint16, nodeID: byte) returns (p: seq<byte>)
    ensures |p| == 26
    ensures WordAt(p, 0) == sid && p[2] == 1 && p[3] == nodeID
    ensures forall i :: 4 <= i < 23 ==> p[i] == 0
    ensures p[23] == 1 && p[24] == 254 && p[25] == 0
  {
    var req := StatusRequestReq(sid, [nodeID], CURRENT_POSITION, 254, 0);
    p := EncodeStatusRequest(req).value;
    var nodes := NodeArray([nodeID]);
    assert p[2..23] == nodes;
    assert forall i :: 0 <= i < 21 ==> p[2 + i] == nodes[i];
  }

  /** A status request comes back exactly when it names at most 20 nodes with consecutive ids; one
      node, which is all the client ever asks for, always does. */
  lemma StatusRequestRoundTripIff(f: StatusRequestReq)
    ensures (EncodeStatusRequest(f).Ok? && DecodeStatusRequest(EncodeStatusRequest(f).value) == Ok(f))
            <==> |f.nodeIDs| <= MAX_NODES && Consecutive(f.nodeIDs)
    ensures |f.nodeIDs| == 1 ==> Consecutive(f.nodeIDs)
  {
    hide U16, Hi, Lo, NodeArray, ReadNodeArray, Consecutive;
    if |f.nodeIDs| <= MAX_NODES {
      var p := EncodeStatusRequest(f).value;
      assert p[2..23] == NodeArray(f.nodeIDs);
      U16RoundTrip(f.sessionID);
      NodeArrayRoundTripIff(f.nodeIDs);
    }
    if |f.nodeIDs| == 1 {
      OneIsConsecutive(f.nodeIDs);
    }
  }

  lemma OneIsConsecutive(ids: seq<byte>)
    requires |ids| == 1
    ensures Consecutive(ids)
  {
  }

  // ---------- GW_COMMAND_SEND_REQ ----------

  datatype CommandSendReq = CommandSendReq(
    sessionID: uint16, originator: byte, priority: byte, activeParameter: byte, fpi1: byte, fpi2: byte,
    parameter: uint16, slots: Slots, nodeIDs: seq<byte>)

  /** The payload holds only the first three functional parameters; the other thirteen slots are
      written as zeros. */
  function EncodeCommand(f: CommandSendReq): Result<seq<byte>> {
    if |f.nodeIDs| > MAX_NODES then Err
    else Ok([Hi(f.sessionID), Lo(f.sessionID), f.originator, f.priority, f.activeParameter, f.fpi1, f.fpi2]
            + ParameterBytes(f.parameter)
            + ParameterBytes(f.slots[0]) + ParameterBytes(f.slots[1]) + ParameterBytes(f.slots[2])
            + Padding(26) + NodeArray(f.nodeIDs) + Padding(4))
  }

  /** The slot of functional parameter j + 1 as it stands on the wire. */
  function WireSlot(p: seq<byte>, j: int): uint16
    requires |p| == 66 && 0 <= j < 16
  {
    U16(p[9 + 2 * j], p[10 + 2 * j])
  }

  method BuildCommand(sid: uint16, nodeID: byte, parameter: uint16, fps: map<int, uint16>) returns (req: CommandSendReq)
    ensures req.sessionID == sid && req.parameter == parameter && req.nodeIDs == [nodeID]
    ensures req.originator == 1 && req.priority == 3 && req.activeParameter == 0
    ensures forall k :: 0 <= k < 8 ==> (Bit(req.fpi1, k) <==> 8 - k in fps)
    ensures forall k :: 0 <= k < 8 ==> (Bit(req.fpi2, k) <==> 16 - k in fps)
    ensures forall j :: 0 <= j < 16 ==> req.slots[j] == SlotValue(fps, j)
  {
    var fpi1, fpi2, slots := Indicators(fps);
    req := CommandSendReq(sid, 1, 3, 0, fpi1, fpi2, parameter, slots, [nodeID]);
  }

  /** Every one of the 66 bytes. */
  lemma CommandLayout(f: CommandSendReq)
    requires |f.nodeIDs| <= MAX_NODES
    ensures EncodeCommand(f).Ok?
    ensures var p := EncodeCommand(f).value;
            && |p| == 66
            && WordAt(p, 0) == f.sessionID && p[2] == f.originator && p[3] == f.priority
            && p[4] == f.activeParameter && p[5] == f.fpi1 && p[6] == f.fpi2
            && WordAt(p, 7) == f.parameter
            && (forall j :: 0 <= j < 16 ==> WordAt(p, 9 + 2 * j) == if j < 3 then f.slots[j] as int else 0)
            && p[41] as int == |f.nodeIDs|
            && (forall i :: 0 <= i < 20 ==> p[42 + i] == if i < |f.nodeIDs| then f.nodeIDs[i] else 0)
            && (forall i :: 62 <= i < 66 ==> p[i] == 0)
  {
    var p := EncodeCommand(f).value;
    var nodes := NodeArray(f.nodeIDs);
    var head := p[..15];
    assert p == head + Padding(26) + nodes + Padding(4);
    assert forall k :: 15 <= k < 41 ==> p[k] == 0;
    assert forall i :: 0 <= i < 21 ==> p[41 + i] == nodes[i];
    assert forall k :: 62 <= k < 66 ==> p[k] == 0;
    assert WordAt(p, 9) == f.slots[0] && WordAt(p, 11) == f.slots[1] && WordAt(p, 13) == f.slots[2];
    forall j | 3 <= j < 16
      ensures WordAt(p, 9 + 2 * j) == 0
    {
      assert 15 <= 9 + 2 * j < 40;
    }
  }

  /** The same as the decoder reads it. */
  lemma CommandFields(f: CommandSendReq)
    requires |f.nodeIDs| <= MAX_NODES
    ensures var p := EncodeCommand(f).value;
            && |p| == 66
            && U16(p[0], p[1]) == f.sessionID && p[2] == f.originator && p[3] == f.priority
            && U16(p[7], p[8]) == f.parameter
            && (forall j :: 0 <= j < 16 ==> WireSlot(p, j) == if j < 3 then f.slots[j] else 0)
            && p[41..62] == NodeArray(f.nodeIDs)
  {
    hide Hi, Lo, U16, NodeArray;
    var p := EncodeCommand(f).value;
    U16RoundTrip(f.sessionID);
    U16RoundTrip(f.parameter);
    U16RoundTrip(f.slots[0]);
    U16RoundTrip(f.slots[1]);
    U16RoundTrip(f.slots[2]);
    ZeroWord();
    var head := p[..15];
    assert p == head + Padding(26) + NodeArray(f.nodeIDs) + Padding(4);
    assert forall k :: 15 <= k < 41 ==> p[k] == 0;
  }

  /** What CommandSend puts on the wire, byte by byte: user originator, user level 2, indicator bits for
      the functional parameters given, the values of the first three, one node. */
  method CommandPayload(sid: uint16, nodeID: byte, parameter: uint16, fps: map<int, uint16>) returns (p: seq<byte>)
    ensures |p| == 66
    ensures WordAt(p, 0) == sid && p[2] == 1 && p[3] == 3 && p[4] == 0
    ensures forall k :: 0 <= k < 8 ==> (Bit(p[5], k) <==> 8 - k in fps)
    ensures forall k :: 0 <= k < 8 ==> (Bit(p[6], k) <==> 16 - k in fps)
    ensures WordAt(p, 7) == parameter
    ensures forall j :: 0 <= j < 3 ==> WordAt(p, 9 + 2 * j) == if j + 1 in fps then fps[j + 1] as int else 0
    ensures forall i :: 15 <= i < 41 ==> p[i] == 0
    ensures p[41] == 1 && p[42] == nodeID && forall i :: 43 <= i < 66 ==> p[i] == 0
  {
    var req := BuildCommand(sid, nodeID, parameter, fps);
    CommandLayout(req);
    p := EncodeCommand(req).value;
    hide EncodeCommand, Bit;
    forall i | 15 <= i < 41
      ensures p[i] == 0
    {
      var j := (i - 9) / 2;
      assert WordAt(p, 9 + 2 * j) == 0;
      assert i == 9 + 2 * j || i == 9 + 2 * j + 1;
    }
    forall i | 43 <= i < 62
      ensures p[i] == 0
    {
      assert p[42 + (i - 42)] == 0;
    }
    assert p[42 + 0] == nodeID;
  }

  lemma ZeroWord()
    ensures U16(0, 0) == 0
  {
  }

  /** All functional parameters of a request reach the wire if and only if those numbered 4 to 16
      are zero: they are flagged in the indicator bytes, but their values are not transmitted. */
  lemma ParametersReachWireIff(f: CommandSendReq)
    requires |f.nodeIDs| <= MAX_NODES
    ensures (forall j :: 0 <= j < 16 ==> WireSlot(EncodeCommand(f).value, j) == f.slots[j])
            <==> forall j :: 3 <= j < 16 ==> f.slots[j] == 0
  {
    CommandFields(f);
    hide EncodeCommand, WireSlot;
  }

  const NoSlots: Slots := [0, 0, 0, 0, 0, 0, 0, 0, 0, 0, 0, 0, 0, 0, 0, 0]

  /** The decoder restores the header and the nodes; indicators, active parameter and slots keep
      their zero values. */
  function DecodeCommand(p: seq<byte>): Result<CommandSendReq> {
    if |p| != 66 then Err
    else match ReadNodeArray(p[41..62])
         case Err => Err
         case Ok(ids) =>
           Ok(CommandSendReq(U16(p[0], p[1]), p[2], p[3], 0, 0, 0, FromRaw(U16(p[7], p[8])), NoSlots, ids))
  }

  /** What the decoder makes of an encoded request. */
  lemma DecodeEncodedCommand(f: CommandSendReq)
    requires |f.nodeIDs| <= MAX_NODES
    ensures DecodeCommand(EncodeCommand(f).value)
            == match ReadNodeArray(NodeArray(f.nodeIDs))
               case Err => Err
               case Ok(ids) => Ok(CommandSendReq(f.sessionID, f.originator, f.priority, 0, 0, 0,
                                                 FromRaw(f.parameter), NoSlots, ids))
  {
    CommandFields(f);
    hide EncodeCommand, U16, NodeArray, ReadNodeArray, FromRaw, WireSlot, NoSlots;
  }

  /** A command request comes back exactly when it has at most 20 consecutive nodes, a normalised
      main parameter and no functional parameter at all. */
  lemma CommandRoundTripIff(f: CommandSendReq)
    ensures (EncodeCommand(f).Ok? && DecodeCommand(EncodeCommand(f).value) == Ok(f))
            <==> && |f.nodeIDs| <= MAX_NODES && Consecutive(f.nodeIDs)
                 && Normalised(f.parameter)
                 && f.activeParameter == f.fpi1 == f.fpi2 == 0 && f.slots == NoSlots
  {
    hide Hi, Lo, U16, NodeArray, ReadNodeArray, Consecutive, FromRaw, WireSlot, NoSlots, DecodeCommand;
    if |f.nodeIDs| <= MAX_NODES {
      DecodeEncodedCommand(f);
      NodeArrayRoundTripIff(f.nodeIDs);
    }
  }
}
