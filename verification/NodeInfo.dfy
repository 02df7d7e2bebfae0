/** The 124-byte node information payload (app/klf200/protocol/frame_nodes.go). */
module NodeInfo {
  import opened Bytes
  import opened Names
  import opened Parameter

  const PAYLOAD_LEN := 124
  const NAME_LEN := 64
  const MAX_ALIASES := 5

  datatype Alias = Alias(t0: byte, t1: byte, v0: byte, v1: byte)

  type Serial = s: seq<byte> | |s| == 8 witness seq(8, _ => 0)

  datatype NodeInfo = NodeInfo(
    nodeID: byte, order: uint16, placement: byte, name: seq<byte>, velocity: byte, nodeType: uint16,
    productGroup: byte, productType: byte, nodeVariation: byte, powerMode: byte, buildNumber: byte,
    serialNumber: Serial, state: byte,
    currentPosition: uint16, target: uint16, fp1: uint16, fp2: uint16, fp3: uint16, fp4: uint16,
    remainingTime: uint16, timestamp: uint32, aliases: seq<Alias>)

  // ---------- Alias array ----------

  function AliasBytes(aliases: seq<Alias>): (b: seq<byte>)
    ensures |b| == 4 * |aliases|
  {
    if aliases == [] then []
    else [aliases[0].t0, aliases[0].t1, aliases[0].v0, aliases[0].v1] + AliasBytes(aliases[1..])
  }

  function AliasArrayBytes(aliases: seq<Alias>): (b: seq<byte>)
    requires |aliases| <= MAX_ALIASES
    ensures |b| == 21
  {
    [|aliases|] + AliasBytes(aliases) + Padding(4 * (MAX_ALIASES - |aliases|))
  }

  function AliasesAt(raw: seq<byte>, n: nat): (aliases: seq<Alias>)
    requires |raw| >= 4 * n
    ensures |aliases| == n
  {
    if n == 0 then [] else [Alias(raw[0], raw[1], raw[2], raw[3])] + AliasesAt(raw[4..], n - 1)
  }

  function AliasArrayFromBytes(raw: seq<byte>): (r: Result<seq<Alias>>)
    requires |raw| == 21
    ensures r.Ok? ==> |r.value| <= MAX_ALIASES
  {
    if raw[0] as int > MAX_ALIASES then Err else Ok(AliasesAt(raw[1..], raw[0]))
  }

  lemma {:induction false} AliasRoundTrip(aliases: seq<Alias>, rest: seq<byte>)
    ensures AliasesAt(AliasBytes(aliases) + rest, |aliases|) == aliases
  {
    if aliases != [] {
      var raw := AliasBytes(aliases) + rest;
      assert raw[4..] == AliasBytes(aliases[1..]) + rest;
      AliasRoundTrip(aliases[1..], rest);
    }
  }

  lemma AliasArrayRoundTrip(aliases: seq<Alias>)
    requires |aliases| <= MAX_ALIASES
    ensures AliasArrayFromBytes(AliasArrayBytes(aliases)) == Ok(aliases)
  {
    var padding := Padding(4 * (MAX_ALIASES - |aliases|));
    assert AliasArrayBytes(aliases)[1..] == AliasBytes(aliases) + padding;
    AliasRoundTrip(aliases, padding);
  }

  // ---------- The payload, region by region ----------

  function Front(n: NodeInfo): (b: seq<byte>)
    ensures |b| == 4
  {
    [n.nodeID, Hi(n.order), Lo(n.order), n.placement]
  }

  function Kind(n: NodeInfo): (b: seq<byte>)
    ensures |b| == 16
  {
    [n.velocity, Hi(n.nodeType), Lo(n.nodeType), n.productGroup, n.productType, n.nodeVariation,
     n.powerMode, n.buildNumber] + n.serialNumber
  }

  function Motion(n: NodeInfo): (b: seq<byte>)
    ensures |b| == 19
  {
    [n.state] + ParameterBytes(n.currentPosition) + ParameterBytes(n.target)
    + ParameterBytes(n.fp1) + ParameterBytes(n.fp2) + ParameterBytes(n.fp3) + ParameterBytes(n.fp4)
    + ParameterBytes(n.remainingTime) + BE32(n.timestamp)
  }

  /** A sixth alias would be copied past the end of the 21-byte array, which panics. */
  datatype Marshalled = Payload(bytes: seq<byte>) | NameTooLong | Panic

  function Encode(n: NodeInfo): Marshalled {
    if |n.name| > NAME_LEN then NameTooLong
    else if |n.aliases| > MAX_ALIASES then Panic
    else Payload(Front(n) + StringToBytes(n.name, NAME_LEN).value + Kind(n) + Motion(n) + AliasArrayBytes(n.aliases))
  }

  function Decode(p: seq<byte>): Result<NodeInfo> {
    if |p| != PAYLOAD_LEN then Err
    else
      match AliasArrayFromBytes(p[103..124])
      case Err => Err
      case Ok(aliases) =>
        Ok(NodeInfo(p[0], U16(p[1], p[2]), p[3], BeforeNul(p[4..68]), p[68], U16(p[69], p[70]),
                    p[71], p[72], p[73], p[74], p[75], p[76..84], p[84],
                    FromRaw(U16(p[85], p[86])), FromRaw(U16(p[87], p[88])), FromRaw(U16(p[89], p[90])),
                    FromRaw(U16(p[91], p[92])), FromRaw(U16(p[93], p[94])), FromRaw(U16(p[95], p[96])),
                    U16(p[97], p[98]), U32(p[99..103]), aliases))
  }

  /** The records the wire form can represent. */
  predicate Canonical(n: NodeInfo) {
    && |n.name| <= NAME_LEN && 0 !in n.name
    && Normalised(n.currentPosition) && Normalised(n.target)
    && Normalised(n.fp1) && Normalised(n.fp2) && Normalised(n.fp3) && Normalised(n.fp4)
    && |n.aliases| <= MAX_ALIASES
  }

  // ---------- frame_nodes.go ----------

  method AliasArrayBytesOf(aliases: seq<Alias>) returns (out: seq<byte>)
    requires |aliases| <= MAX_ALIASES
    ensures out == AliasArrayBytes(aliases)
  {
    out := Padding(21);
    out := out[0 := |aliases|];
    for i := 0 to |aliases|
      invariant out == [|aliases|] + AliasBytes(aliases[..i]) + Padding(20 - 4 * i)
    {
      var e, at := aliases[i], i * 4 + 1;
      AliasBytesAppend(aliases[..i], e);
      assert aliases[..i + 1] == aliases[..i] + [e];
      out := out[at := e.t0][at + 1 := e.t1][at + 2 := e.v0][at + 3 := e.v1];
    }
    assert aliases[..|aliases|] == aliases;
  }

  lemma {:induction false} AliasBytesAppend(aliases: seq<Alias>, e: Alias)
    ensures AliasBytes(aliases + [e]) == AliasBytes(aliases) + [e.t0, e.t1, e.v0, e.v1]
  {
    if aliases == [] {
      assert aliases + [e] == [e];
    } else {
      assert (aliases + [e])[1..] == aliases[1..] + [e];
      AliasBytesAppend(aliases[1..], e);
    }
  }

  function AliasAt(raw: seq<byte>, i: nat): Alias
    requires i + 4 <= |raw|
  {
    Alias(raw[i], raw[i + 1], raw[i + 2], raw[i + 3])
  }

  lemma ShiftedAlias(raw: seq<byte>, i: nat)
    requires i + 8 <= |raw|
    ensures AliasAt(raw[4..], i) == AliasAt(raw, i + 4)
  {
  }

  lemma AliasesStep(raw: seq<byte>, n: nat)
    requires |raw| >= 4 * n
    ensures n == 0 ==> AliasesAt(raw, n) == []
    ensures n > 0 ==> AliasesAt(raw, n) == [AliasAt(raw, 0)] + AliasesAt(raw[4..], n - 1)
  {
  }

  lemma {:induction false} AliasesAtAppend(raw: seq<byte>, n: nat)
    requires |raw| >= 4 * n + 4
    ensures AliasesAt(raw, n + 1) == AliasesAt(raw, n) + [AliasAt(raw, 4 * n)]
  {
    hide AliasesAt, AliasAt;
    AliasesStep(raw, n + 1);
    AliasesStep(raw, n);
    if n == 0 {
      AliasesStep(raw[4..], 0);
    } else {
      AliasesAtAppend(raw[4..], n - 1);
      ShiftedAlias(raw, 4 * (n - 1));
    }
  }

  method AliasArrayOfBytes(raw: seq<byte>) returns (r: Result<seq<Alias>>)
    requires |raw| == 21
    ensures r == AliasArrayFromBytes(raw)
  {
    var n: int := raw[0];
    if n > MAX_ALIASES {
      return Err;
    }
    var entries := [];
    for i := 0 to n
      invariant entries == AliasesAt(raw[1..], i)
    {
      var at := i * 4 + 1;
      AliasesAtAppend(raw[1..], i);
      assert AliasAt(raw[1..], 4 * i) == AliasAt(raw, at);
      entries := entries + [AliasAt(raw, at)];
    }
    r := Ok(entries);
  }

  method MarshalNodeInfo(n: NodeInfo) returns (r: Marshalled)
    ensures r == Encode(n)
  {
    hide Hi, Lo, BE32;
    var payload := [n.nodeID];
    payload := payload + [Hi(n.order), Lo(n.order)];
    payload := payload + [n.placement];
    assert payload == Front(n);
    var name := StringToBytes(n.name, NAME_LEN);
    if name.Err? {
      return NameTooLong;
    }
    payload := payload + name.value;
    var kind := [n.velocity, Hi(n.nodeType), Lo(n.nodeType), n.productGroup, n.productType,
                 n.nodeVariation, n.powerMode, n.buildNumber];
    payload := payload + (kind + n.serialNumber);
    var motion := [n.state] + ParameterBytes(n.currentPosition) + ParameterBytes(n.target)
               + ParameterBytes(n.fp1) + ParameterBytes(n.fp2) + ParameterBytes(n.fp3) + ParameterBytes(n.fp4)
               + [Hi(n.remainingTime), Lo(n.remainingTime)] + BE32(n.timestamp);
    payload := payload + motion;
    if |n.aliases| > MAX_ALIASES {
      return Panic;
    }
    var aliases := AliasArrayBytesOf(n.aliases);
    r := Payload(payload + aliases);
  }

  method UnmarshalNodeInfo(p: seq<byte>) returns (r: Result<NodeInfo>)
    ensures r == Decode(p)
  {
    hide U16, U32, FromRaw;
    if |p| != PAYLOAD_LEN {
      return Err;
    }
    var name := BytesToString(p[4..68]);
    var aliases := AliasArrayOfBytes(p[103..124]);
    if aliases.Err? {
      return Err;
    }
    r := Ok(NodeInfo(p[0], U16(p[1], p[2]), p[3], name, p[68], U16(p[69], p[70]),
                     p[71], p[72], p[73], p[74], p[75], p[76..84], p[84],
                     FromRaw(U16(p[85], p[86])), FromRaw(U16(p[87], p[88])), FromRaw(U16(p[89], p[90])),
                     FromRaw(U16(p[91], p[92])), FromRaw(U16(p[93], p[94])), FromRaw(U16(p[95], p[96])),
                     U16(p[97], p[98]), U32(p[99..103]), aliases.value));
  }

  // ---------- Round trips ----------

  lemma EncodedRegions(n: NodeInfo)
    requires Encode(n).Payload?
    ensures var p := Encode(n).bytes;
            |p| == PAYLOAD_LEN && p[..4] == Front(n) && p[4..68] == StringToBytes(n.name, NAME_LEN).value
            && p[68..84] == Kind(n) && p[84..103] == Motion(n) && p[103..124] == AliasArrayBytes(n.aliases)
  {
    hide Front, Kind, Motion, AliasArrayBytes, StringToBytes;
  }

  lemma KindFields(n: NodeInfo, p: seq<byte>)
    requires |p| == PAYLOAD_LEN && p[68..84] == Kind(n)
    ensures p[68] == n.velocity && U16(p[69], p[70]) == n.nodeType && p[71] == n.productGroup
    ensures p[72] == n.productType && p[73] == n.nodeVariation && p[74] == n.powerMode
    ensures p[75] == n.buildNumber && p[76..84] == n.serialNumber
  {
    hide U16, Hi, Lo;
    U16RoundTrip(n.nodeType);
    var b := p[68..84];
    assert forall i :: 0 <= i < 16 ==> p[68 + i] == b[i];
    assert p[76..84] == b[8..];
  }

  lemma MotionFields(n: NodeInfo, p: seq<byte>)
    requires |p| == PAYLOAD_LEN && p[84..103] == Motion(n)
    ensures p[84] == n.state && U16(p[85], p[86]) == n.currentPosition && U16(p[87], p[88]) == n.target
    ensures U16(p[89], p[90]) == n.fp1 && U16(p[91], p[92]) == n.fp2 && U16(p[93], p[94]) == n.fp3
    ensures U16(p[95], p[96]) == n.fp4 && U16(p[97], p[98]) == n.remainingTime
    ensures U32(p[99..103]) == n.timestamp
  {
    hide U16, U32, BE32, Hi, Lo;
    U16RoundTrip(n.currentPosition);
    U16RoundTrip(n.target);
    U16RoundTrip(n.fp1);
    U16RoundTrip(n.fp2);
    U16RoundTrip(n.fp3);
    U16RoundTrip(n.fp4);
    U16RoundTrip(n.remainingTime);
    U32RoundTrip(n.timestamp);
    var b := p[84..103];
    assert forall i :: 0 <= i < 19 ==> p[84 + i] == b[i];
    assert p[99..103] == b[15..] == BE32(n.timestamp);
  }

  /** A region of a payload, byte by byte. */
  lemma Region(p: seq<byte>, lo: nat, hi: nat, b: seq<byte>)
    requires lo <= hi <= |p| && p[lo..hi] == b
    ensures |b| == hi - lo && forall i :: 0 <= i < |b| ==> p[lo + i] == b[i]
  {
    assert forall i :: 0 <= i < |b| ==> p[lo..hi][i] == p[lo + i];
  }

  /** The fixed fields before and after the name. */
  predicate HasKind(p: seq<byte>, n: NodeInfo)
    requires |p| == 124
  {
    && p[0] == n.nodeID && WordAt(p, 1) == n.order && p[3] == n.placement
    && p[68] == n.velocity && WordAt(p, 69) == n.nodeType && p[71] == n.productGroup && p[72] == n.productType
    && p[73] == n.nodeVariation && p[74] == n.powerMode && p[75] == n.buildNumber && p[76..84] == n.serialNumber
  }

  predicate HasMotion(p: seq<byte>, n: NodeInfo)
    requires |p| == 124
  {
    && p[84] == n.state && WordAt(p, 85) == n.currentPosition && WordAt(p, 87) == n.target
    && WordAt(p, 89) == n.fp1 && WordAt(p, 91) == n.fp2 && WordAt(p, 93) == n.fp3 && WordAt(p, 95) == n.fp4
    && WordAt(p, 97) == n.remainingTime && LongAt(p, 99) == n.timestamp
  }

  lemma KindOnWire(n: NodeInfo, p: seq<byte>)
    requires |p| == 124 && p[..4] == Front(n) && p[68..84] == Kind(n)
    ensures HasKind(p, n)
  {
    Region(p, 0, 4, Front(n));
    Region(p, 68, 84, Kind(n));
    assert p[76..84] == p[68..84][8..];
  }

  lemma MotionOnWire(n: NodeInfo, p: seq<byte>)
    requires |p| == 124 && p[84..103] == Motion(n)
    ensures HasMotion(p, n)
  {
    Region(p, 84, 103, Motion(n));
    hide BE32;
    assert p[99..103] == p[84..103][15..] == BE32(n.timestamp);
    LongOnWire(n.timestamp, p, 99);
  }

  lemma {:induction false} AliasLayout(aliases: seq<Alias>, j: nat)
    requires j < |aliases|
    ensures var b := AliasBytes(aliases);
            Alias(b[4 * j], b[4 * j + 1], b[4 * j + 2], b[4 * j + 3]) == aliases[j]
  {
    if j > 0 {
      var b, rest := AliasBytes(aliases), AliasBytes(aliases[1..]);
      AliasLayout(aliases[1..], j - 1);
      assert b[4..] == rest;
      assert b[4 * j] == rest[4 * (j - 1)] && b[4 * j + 1] == rest[4 * (j - 1) + 1]
             && b[4 * j + 2] == rest[4 * (j - 1) + 2] && b[4 * j + 3] == rest[4 * (j - 1) + 3];
    }
  }

  /** The aliases in the last 21 bytes. */
  predicate HasAliases(p: seq<byte>, n: NodeInfo)
    requires |p| == 124 && |n.aliases| <= 5
  {
    && p[103] as int == |n.aliases|
    && (forall j :: 0 <= j < |n.aliases| ==>
          Alias(p[104 + 4 * j], p[105 + 4 * j], p[106 + 4 * j], p[107 + 4 * j]) == n.aliases[j])
    && (forall i :: 104 + 4 * |n.aliases| <= i < 124 ==> p[i] == 0)
  }

  lemma AliasesOnWire(n: NodeInfo, p: seq<byte>)
    requires |p| == 124 && |n.aliases| <= 5 && p[103..124] == AliasArrayBytes(n.aliases)
    ensures HasAliases(p, n)
  {
    var b := AliasBytes(n.aliases);
    Region(p, 103, 124, AliasArrayBytes(n.aliases));
    assert forall i :: 0 <= i < |b| ==> p[104 + i] == b[i] by {
      assert forall i :: 0 <= i < |b| ==> AliasArrayBytes(n.aliases)[1 + i] == b[i];
    }
    hide AliasBytes;
    forall j | 0 <= j < |n.aliases|
      ensures Alias(p[104 + 4 * j], p[105 + 4 * j], p[106 + 4 * j], p[107 + 4 * j]) == n.aliases[j]
    {
      AliasLayout(n.aliases, j);
      assert p[104 + 4 * j] == b[4 * j] && p[105 + 4 * j] == b[4 * j + 1]
             && p[106 + 4 * j] == b[4 * j + 2] && p[107 + 4 * j] == b[4 * j + 3];
    }
  }

  /** Every byte of a written record, and when there is one. */
  lemma NodeInfoLayout(n: NodeInfo)
    ensures Encode(n) == NameTooLong <==> |n.name| > 64
    ensures Encode(n) == Panic <==> |n.name| <= 64 && |n.aliases| > 5
    ensures Encode(n).Payload? ==>
              var p := Encode(n).bytes;
              && |p| == 124 && HasKind(p, n) && HasMotion(p, n) && HasAliases(p, n)
              && forall i :: 0 <= i < 64 ==> p[4 + i] == if i < |n.name| then n.name[i] else 0
  {
    if Encode(n).Payload? {
      var p := Encode(n).bytes;
      EncodedRegions(n);
      KindOnWire(n, p);
      MotionOnWire(n, p);
      AliasesOnWire(n, p);
      Region(p, 4, 68, StringToBytes(n.name, NAME_LEN).value);
      hide HasKind, HasMotion, HasAliases, Encode;
    }
  }

  /** Exactly the payloads of 124 bytes with at most five aliases are accepted. */
  lemma AcceptedPayload(p: seq<byte>)
    ensures Decode(p).Ok? <==> |p| == 124 && p[103] <= 5
  {
    hide U16, U32, FromRaw, BeforeNul, AliasesAt;
  }

  /** Decoding undoes encoding exactly on the canonical records. */
  lemma NodeInfoRoundTripIff(n: NodeInfo)
    ensures Encode(n).Payload? ==> Decode(Encode(n).bytes).Ok?
    ensures (Encode(n).Payload? && Decode(Encode(n).bytes) == Ok(n)) <==> Canonical(n)
  {
    hide FromRaw, U16, U32, Hi, Lo, BE32, Kind, Motion, AliasArrayBytes, AliasArrayFromBytes, BeforeNul, StringToBytes;
    if Encode(n).Payload? {
      var p := Encode(n).bytes;
      EncodedRegions(n);
      assert p[..4][0] == p[0] && p[..4][1] == p[1] && p[..4][2] == p[2] && p[..4][3] == p[3];
      U16RoundTrip(n.order);
      KindFields(n, p);
      MotionFields(n, p);
      AliasArrayRoundTrip(n.aliases);
      NameRoundTripIff(n.name, NAME_LEN);
    }
  }

  /** Every accepted payload decodes to a canonical record. */
  lemma DecodedIsCanonical(p: seq<byte>)
    requires Decode(p).Ok?
    ensures Canonical(Decode(p).value)
  {
    hide U16, U32, AliasArrayFromBytes, BeforeNul, FromRaw;
    forall raw: uint16
      ensures FromRaw(FromRaw(raw)) == FromRaw(raw)
    {
      NormalisedIffValid(raw);
    }
  }

  /** Re-encoding is a normal form: for every accepted payload, the re-encoding of its decoding is
      accepted, decodes to the same record, and re-encodes to itself. */
  lemma ReencodeIsStable(p: seq<byte>)
    requires Decode(p).Ok?
    ensures var once := Encode(Decode(p).value);
            && once.Payload? && Decode(once.bytes) == Decode(p)
            && Encode(Decode(once.bytes).value) == once
  {
    DecodedIsCanonical(p);
    NodeInfoRoundTripIff(Decode(p).value);
  }

  /** The normal form loses nothing but padding: two accepted payloads decode to the same record
      exactly when they have the same one. */
  lemma SameRecordIffSameNormalForm(p: seq<byte>, q: seq<byte>)
    requires Decode(p).Ok? && Decode(q).Ok?
    ensures Decode(p) == Decode(q) <==> Encode(Decode(p).value) == Encode(Decode(q).value)
  {
    hide Decode, Encode;
    ReencodeIsStable(p);
    ReencodeIsStable(q);
  }
}
