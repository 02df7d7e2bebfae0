/** GW_STATUS_REQUEST_NTF (app/klf200/protocol/frame_commands.go): a notification carrying a map of
    parameters, written in whatever order the map is iterated. Layouts follow Tables 188 and 189 of
    the KLF 200 API specification. */
module StatusNotification {
  import opened Bytes
  import opened Names
  import opened Parameter

  const REQUEST_MAIN_INFO: byte := 3
  /** Entries the fixed parameter region of 51 bytes can hold. */
  const MAX_ENTRIES := 17

  datatype Notification = Notification(
    sessionID: uint16, statusID: byte, nodeID: byte, runStatus: byte, statusReply: byte, statusType: byte,
    targetPosition: uint16, currentPosition: uint16, remainingTime: uint16,
    lastMasterExecutionAddress: uint32, lastCommandOriginator: byte,
    statusCount: byte, parameterData: map<byte, uint16>)

  /** Marshalling panics when the padding would have negative length. */
  datatype Marshalled = Payload(bytes: seq<byte>) | Panic

  /** One possible iteration of a Go map: every key once, in any order. */
  ghost predicate IsIteration(order: seq<byte>, m: map<byte, uint16>) {
    && |order| == |m|
    && (forall k :: k in m <==> k in order)
    && (forall i, j :: 0 <= i < j < |order| ==> order[i] != order[j])
  }

  // ---------- Specification ----------

  function Header(f: Notification): seq<byte> {
    [Hi(f.sessionID), Lo(f.sessionID), f.statusID, f.nodeID, f.runStatus, f.statusReply, f.statusType]
  }

  function Entries(m: map<byte, uint16>, order: seq<byte>): (b: seq<byte>)
    requires forall k :: k in order ==> k in m
    ensures |b| == 3 * |order|
  {
    if order == [] then []
    else [order[0]] + ParameterBytes(m[order[0]]) + Entries(m, order[1..])
  }

  function NormalOn(m: map<byte, uint16>, keys: seq<byte>): map<byte, uint16>
    requires forall k :: k in keys ==> k in m
  {
    map k | k in keys :: FromRaw(m[k])
  }

  function Normal(m: map<byte, uint16>): map<byte, uint16> {
    map k | k in m :: FromRaw(m[k])
  }

  function Written(f: Notification): nat {
    if f.statusCount as int <= |f.parameterData| then f.statusCount else |f.parameterData|
  }

  function Encode(f: Notification, order: seq<byte>): Marshalled
    requires IsIteration(order, f.parameterData)
  {
    if f.statusType == REQUEST_MAIN_INFO then
      Payload(Header(f) + ParameterBytes(f.targetPosition) + ParameterBytes(f.currentPosition)
              + ParameterBytes(f.remainingTime) + BE32(f.lastMasterExecutionAddress) + [f.lastCommandOriginator])
    else if |f.parameterData| > MAX_ENTRIES then Panic
    else Payload(Header(f) + [f.statusCount] + Entries(f.parameterData, order[..Written(f)])
                 + Padding(51 - 3 * |f.parameterData|))
  }

  /** The map built from consecutive three-byte entries, later ones winning. */
  function ParseEntries(b: seq<byte>, acc: map<byte, uint16>): map<byte, uint16> {
    if |b| < 3 then acc
    else ParseEntries(b[3..], acc[b[0] := FromRaw(U16(b[1], b[2]))])
  }

  function Decode(p: seq<byte>): Result<Notification> {
    if |p| < 7 then Err
    else
      var empty := Notification(U16(p[0], p[1]), p[2], p[3], p[4], p[5], p[6], 0, 0, 0, 0, 0, 0, map[]);
      if p[6] == REQUEST_MAIN_INFO then
        if |p| < 18 then Err
        else Ok(empty.(targetPosition := FromRaw(U16(p[7], p[8])), currentPosition := FromRaw(U16(p[9], p[10])),
                       remainingTime := U16(p[11], p[12]), lastMasterExecutionAddress := U32(p[13..17]),
                       lastCommandOriginator := p[17]))
      else if |p| < 8 || |p| < 8 + p[7] as int * 3 then Err
      else Ok(empty.(statusCount := p[7], parameterData := ParseEntries(p[8..8 + p[7] as int * 3], map[])))
  }

  // ---------- frame_commands.go ----------

  lemma {:induction false} EntriesAppend(m: map<byte, uint16>, order: seq<byte>, key: byte)
    requires forall k :: k in order ==> k in m
    requires key in m
    ensures Entries(m, order + [key]) == Entries(m, order) + [key] + ParameterBytes(m[key])
  {
    if order == [] {
      assert order + [key] == [key];
    } else {
      assert (order + [key])[1..] == order[1..] + [key];
      EntriesAppend(m, order[1..], key);
    }
  }

  method MarshalPayload(f: Notification, order: seq<byte>) returns (r: Marshalled)
    requires IsIteration(order, f.parameterData)
    ensures r == Encode(f, order)
  {
    hide Hi, Lo, BE32;
    var payload := [Hi(f.sessionID), Lo(f.sessionID), f.statusID, f.nodeID,
                    f.runStatus, f.statusReply, f.statusType];
    if f.statusType == REQUEST_MAIN_INFO {
      payload := payload + ParameterBytes(f.targetPosition);
      payload := payload + ParameterBytes(f.currentPosition);
      payload := payload + [Hi(f.remainingTime), Lo(f.remainingTime)]
                 + BE32(f.lastMasterExecutionAddress) + [f.lastCommandOriginator];
    } else {
      payload := payload + [f.statusCount];
      var count: int := f.statusCount;
      ghost var start := payload;
      var i := 0;
      while i < |order| && count > 0
        invariant 0 <= i <= |order| && count == f.statusCount as int - i >= 0
        invariant payload == start + Entries(f.parameterData, order[..i])
      {
        EntriesAppend(f.parameterData, order[..i], order[i]);
        assert order[..i + 1] == order[..i] + [order[i]];
        payload := payload + [order[i]];
        payload := payload + ParameterBytes(f.parameterData[order[i]]);
        count := count - 1;
        i := i + 1;
      }
      var remaining := 51 - 3 * |f.parameterData|;
      if remaining < 0 {
        return Panic;
      }
      payload := payload + Padding(remaining);
    }
    r := Payload(payload);
  }

  lemma ParseStep(payload: seq<byte>, i: nat, end: nat, acc: map<byte, uint16>)
    requires i + 3 <= end <= |payload|
    ensures ParseEntries(payload[i..end], acc)
            == ParseEntries(payload[i + 3..end], acc[payload[i] := FromRaw(U16(payload[i + 1], payload[i + 2]))])
  {
    hide FromRaw, U16;
    assert payload[i..end][3..] == payload[i + 3..end];
  }

  lemma ParseDone(b: seq<byte>, acc: map<byte, uint16>)
    requires b == []
    ensures ParseEntries(b, acc) == acc
  {
  }

  method UnmarshalPayload(payload: seq<byte>) returns (r: Result<Notification>)
    ensures r == Decode(payload)
  {
    hide U16, U32, FromRaw, ParseEntries;
    if |payload| < 7 {
      return Err;
    }
    var f := Notification(U16(payload[0], payload[1]), payload[2], payload[3], payload[4], payload[5],
                          payload[6], 0, 0, 0, 0, 0, 0, map[]);
    if f.statusType == REQUEST_MAIN_INFO {
      if |payload| < 18 {
        return Err;
      }
      f := f.(targetPosition := FromRaw(U16(payload[7], payload[8])));
      f := f.(currentPosition := FromRaw(U16(payload[9], payload[10])));
      f := f.(remainingTime := U16(payload[11], payload[12]));
      f := f.(lastMasterExecutionAddress := U32(payload[13..17]), lastCommandOriginator := payload[17]);
    } else {
      if |payload| < 8 {
        return Err;
      }
      f := f.(statusCount := payload[7]);
      var end: int := 8 + f.statusCount as int * 3;
      if |payload| < end {
        return Err;
      }
      ghost var fields := f;
      ghost var left: nat := f.statusCount;
      var i := 8;
      while i < end
        invariant 8 <= i <= end == i + 3 * left
        invariant ParseEntries(payload[i..end], f.parameterData) == ParseEntries(payload[8..end], map[])
        invariant f == fields.(parameterData := f.parameterData)
      {
        ParseStep(payload, i, end, f.parameterData);
        f := f.(parameterData := f.parameterData[payload[i] := FromRaw(U16(payload[i + 1], payload[i + 2]))]);
        i, left := i + 3, left - 1;
      }
      ParseDone(payload[i..end], f.parameterData);
    }
    r := Ok(f);
  }

  // ---------- Round trip ----------

  lemma {:induction false} ParseWritten(m: map<byte, uint16>, order: seq<byte>, rest: seq<byte>, acc: map<byte, uint16>)
    requires forall k :: k in order ==> k in m
    requires forall i, j :: 0 <= i < j < |order| ==> order[i] != order[j]
    ensures ParseEntries(Entries(m, order) + rest, acc)
            == ParseEntries(rest, acc + NormalOn(m, order))
  {
    hide FromRaw, U16, Hi, Lo;
    if order == [] {
      assert Entries(m, order) + rest == rest;
      assert acc + NormalOn(m, order) == acc;
    } else {
      var key := order[0];
      ParseOne(key, m[key], Entries(m, order[1..]) + rest, acc);
      assert Entries(m, order) + rest == [key] + ParameterBytes(m[key]) + (Entries(m, order[1..]) + rest);
      ParseWritten(m, order[1..], rest, acc[key := FromRaw(m[key])]);
      TakeFirst(m, order, acc);
    }
  }

  lemma TakeFirst(m: map<byte, uint16>, order: seq<byte>, acc: map<byte, uint16>)
    requires order != [] && forall k :: k in order ==> k in m
    requires forall i, j :: 0 <= i < j < |order| ==> order[i] != order[j]
    ensures acc[order[0] := FromRaw(m[order[0]])] + NormalOn(m, order[1..])
         == acc + NormalOn(m, order)
  {
    hide FromRaw;
    assert order == [order[0]] + order[1..];
  }

  lemma ParseOne(key: byte, value: uint16, rest: seq<byte>, acc: map<byte, uint16>)
    ensures ParseEntries([key] + ParameterBytes(value) + rest, acc) == ParseEntries(rest, acc[key := FromRaw(value)])
  {
    hide FromRaw;
    var b := [key] + ParameterBytes(value) + rest;
    assert b[3..] == rest;
    U16RoundTrip(value);
  }

  lemma {:induction false} ParseZeros(n: nat, acc: map<byte, uint16>)
    requires n % 3 == 0
    ensures ParseEntries(Padding(n), acc) == if n == 0 then acc else acc[0 := 0]
  {
    if n > 0 {
      assert Padding(n)[3..] == Padding(n - 3);
      ParseZeros(n - 3, acc[0 := 0]);
    }
  }

  ghost predicate AllNormalised(m: map<byte, uint16>) {
    forall k :: k in m ==> Normalised(m[k])
  }

  /** What a count field must say for the map to come back: the number of entries, or a larger
      number that still fits, whose surplus entries (read from the zero padding) are harmless
      because parameter 0 is present and zero. */
  predicate CountFits(count: byte, m: map<byte, uint16>) {
    count as int == |m| || (|m| < count as int <= MAX_ENTRIES && 0 in m && m[0] == 0)
  }

  /** The entries a decoder finds in the written ones followed by the zero padding. */
  function Decoded(f: Notification, order: seq<byte>): map<byte, uint16>
    requires IsIteration(order, f.parameterData)
  {
    var used := NormalOn(f.parameterData, order[..Written(f)]);
    if f.statusCount as int <= |f.parameterData| then used else used[0 := 0]
  }

  lemma ParseBody(f: Notification, order: seq<byte>, body: seq<byte>)
    requires IsIteration(order, f.parameterData)
    requires |f.parameterData| <= MAX_ENTRIES && f.statusCount as int <= MAX_ENTRIES
    requires body == Entries(f.parameterData, order[..Written(f)]) + Padding(3 * (f.statusCount as int - Written(f)))
    ensures ParseEntries(body, map[]) == Decoded(f, order)
  {
    hide ParseEntries, Entries, FromRaw;
    var n := 3 * (f.statusCount as int - Written(f));
    var used := NormalOn(f.parameterData, order[..Written(f)]);
    ParseWritten(f.parameterData, order[..Written(f)], Padding(n), map[]);
    assert map[] + used == used;
    ParseZeros(n, used);
  }

  /** The three regions of an encoded notification. */
  lemma Layout(f: Notification, order: seq<byte>)
    requires IsIteration(order, f.parameterData)
    requires f.statusType != REQUEST_MAIN_INFO && |f.parameterData| <= MAX_ENTRIES
    ensures var p := Encode(f, order).bytes;
            |p| == 59 - 3 * (|f.parameterData| - Written(f))
            && p[..8] == Header(f) + [f.statusCount]
            && (f.statusCount as int <= MAX_ENTRIES ==>
                  p[8..8 + 3 * f.statusCount as int]
                  == Entries(f.parameterData, order[..Written(f)]) + Padding(3 * (f.statusCount as int - Written(f))))
  {
    hide Header, Entries;
    var p := Encode(f, order).bytes;
    var written := Entries(f.parameterData, order[..Written(f)]);
    var zeros := Padding(51 - 3 * |f.parameterData|);
    assert p == Header(f) + [f.statusCount] + written + zeros;
    assert |Header(f)| == 7 by { HeaderLength(f); }
    assert p[8..] == written + zeros;
    var n := 3 * (f.statusCount as int - Written(f));
    if f.statusCount as int <= MAX_ENTRIES {
      assert zeros[..n] == Padding(n);
      assert p[8..][..|written| + n] == written + zeros[..n];
      assert p[8..8 + 3 * f.statusCount as int] == p[8..][..|written| + n];
    }
  }

  lemma HeaderLength(f: Notification)
    ensures |Header(f)| == 7
  {
  }

  /** One entry in three bytes. */
  lemma {:induction false} EntriesLayout(m: map<byte, uint16>, order: seq<byte>, j: nat)
    requires forall k :: k in order ==> k in m
    requires j < |order|
    ensures Entries(m, order)[3 * j] == order[j] && WordAt(Entries(m, order), 3 * j + 1) == m[order[j]]
  {
    var b, rest := Entries(m, order), Entries(m, order[1..]);
    if j > 0 {
      EntriesLayout(m, order[1..], j - 1);
      assert b[3..] == rest;
      assert b[3 * j] == rest[3 * (j - 1)];
      assert b[3 * j + 1] == rest[3 * (j - 1) + 1] && b[3 * j + 2] == rest[3 * (j - 1) + 2];
    }
  }

  /** The first seven bytes. */
  predicate HasHeader(p: seq<byte>, f: Notification) {
    && |p| >= 7 && WordAt(p, 0) == f.sessionID && p[2] == f.statusID && p[3] == f.nodeID
    && p[4] == f.runStatus && p[5] == f.statusReply && p[6] == f.statusType
  }

  lemma HeaderOnWire(f: Notification, p: seq<byte>)
    requires |p| >= 7 && p[..7] == Header(f)
    ensures HasHeader(p, f)
  {
    var h := p[..7];
    assert forall i :: 0 <= i < 7 ==> p[i] == h[i];
  }

  /** Every byte of a written notification, and when there is one at all. */
  lemma NotificationLayout(f: Notification, order: seq<byte>)
    requires IsIteration(order, f.parameterData)
    ensures Encode(f, order).Panic? <==> f.statusType != 3 && |f.parameterData| > 17
    ensures f.statusType == 3 ==>
              var p := Encode(f, order).bytes;
              && |p| == 18 && HasHeader(p, f)
              && WordAt(p, 7) == f.targetPosition && WordAt(p, 9) == f.currentPosition
              && WordAt(p, 11) == f.remainingTime && LongAt(p, 13) == f.lastMasterExecutionAddress
              && p[17] == f.lastCommandOriginator
    ensures f.statusType != 3 && |f.parameterData| <= 17 ==>
              var p := Encode(f, order).bytes;
              var n := if f.statusCount as int <= |order| then f.statusCount as int else |order|;
              && |p| == 59 - 3 * (|order| - n) && HasHeader(p, f) && p[7] == f.statusCount
              && (forall j :: 0 <= j < n ==>
                    p[8 + 3 * j] == order[j] && WordAt(p, 9 + 3 * j) == f.parameterData[order[j]])
              && (forall i :: 8 + 3 * n <= i < |p| ==> p[i] == 0)
  {
    if f.statusType == 3 {
      MainInfoOnWire(f, order);
    } else if |f.parameterData| <= 17 {
      MapOnWire(f, order);
    }
  }

  lemma MainInfoOnWire(f: Notification, order: seq<byte>)
    requires IsIteration(order, f.parameterData) && f.statusType == 3
    ensures var p := Encode(f, order).bytes;
            && |p| == 18 && HasHeader(p, f)
            && WordAt(p, 7) == f.targetPosition && WordAt(p, 9) == f.currentPosition
            && WordAt(p, 11) == f.remainingTime && LongAt(p, 13) == f.lastMasterExecutionAddress
            && p[17] == f.lastCommandOriginator
  {
    hide BE32, Header;
    HeaderLength(f);
    var p := Encode(f, order).bytes;
    assert p[..7] == Header(f);
    HeaderOnWire(f, p);
    assert p[13..17] == BE32(f.lastMasterExecutionAddress);
    LongOnWire(f.lastMasterExecutionAddress, p, 13);
  }

  lemma MapOnWire(f: Notification, order: seq<byte>)
    requires IsIteration(order, f.parameterData) && f.statusType != 3 && |f.parameterData| <= 17
    ensures var p := Encode(f, order).bytes;
            var n := if f.statusCount as int <= |order| then f.statusCount as int else |order|;
            && |p| == 59 - 3 * (|order| - n) && HasHeader(p, f) && p[7] == f.statusCount
            && (forall j :: 0 <= j < n ==>
                  p[8 + 3 * j] == order[j] && WordAt(p, 9 + 3 * j) == f.parameterData[order[j]])
            && (forall i :: 8 + 3 * n <= i < |p| ==> p[i] == 0)
  {
    hide Header, Entries;
    HeaderLength(f);
    var p := Encode(f, order).bytes;
    var n := Written(f);
    var written := Entries(f.parameterData, order[..n]);
    var zeros := Padding(51 - 3 * |f.parameterData|);
    assert p == Header(f) + [f.statusCount] + written + zeros;
    assert p[..7] == Header(f);
    HeaderOnWire(f, p);
    forall j | 0 <= j < n
      ensures p[8 + 3 * j] == order[j] && WordAt(p, 9 + 3 * j) == f.parameterData[order[j]]
    {
      EntriesLayout(f.parameterData, order[..n], j);
      assert p[8 + 3 * j] == written[3 * j];
      assert p[9 + 3 * j] == written[3 * j + 1] && p[10 + 3 * j] == written[3 * j + 2];
    }
    forall i | 8 + 3 * n <= i < |p|
      ensures p[i] == 0
    {
      assert p[i] == zeros[i - 8 - 3 * n];
    }
  }

  /** Entry j of a region of entries, and no later entry has its key. */
  ghost predicate LastOfItsKey(b: seq<byte>, j: nat) {
    3 * j + 3 <= |b| && forall i :: j < i && 3 * i + 3 <= |b| ==> b[3 * i] != b[3 * j]
  }

  /** A parsed map holds exactly the keys found, each with its last value. */
  lemma {:induction false} ParsedIsLast(b: seq<byte>, acc: map<byte, uint16>, j: nat)
    requires LastOfItsKey(b, j)
    ensures b[3 * j] in ParseEntries(b, acc)
            && ParseEntries(b, acc)[b[3 * j]] == FromRaw(U16(b[3 * j + 1], b[3 * j + 2]))
  {
    hide FromRaw, U16;
    var rest := b[3..];
    var next := acc[b[0] := FromRaw(U16(b[1], b[2]))];
    if j == 0 {
      forall i: nat | 3 * i + 3 <= |rest|
        ensures rest[3 * i] != b[0]
      {
        assert rest[3 * i] == b[3 * (i + 1)];
      }
      ParseKeeps(rest, next, b[0]);
    } else {
      assert rest[3 * (j - 1)] == b[3 * j] && rest[3 * (j - 1) + 1] == b[3 * j + 1]
             && rest[3 * (j - 1) + 2] == b[3 * j + 2];
      assert LastOfItsKey(rest, j - 1) by {
        forall i | j - 1 < i && 3 * i + 3 <= |rest|
          ensures rest[3 * i] != rest[3 * (j - 1)]
        {
          assert rest[3 * i] == b[3 * (i + 1)];
        }
      }
      ParsedIsLast(rest, next, j - 1);
    }
  }

  lemma {:induction false} ParseKeeps(b: seq<byte>, acc: map<byte, uint16>, key: byte)
    requires forall i: nat :: 3 * i + 3 <= |b| ==> b[3 * i] != key
    ensures key in ParseEntries(b, acc) <==> key in acc
    ensures key in acc ==> ParseEntries(b, acc)[key] == acc[key]
  {
    hide FromRaw, U16;
    if |b| >= 3 {
      var rest := b[3..];
      assert b[3 * 0] != key;
      forall i: nat | 3 * i + 3 <= |rest|
        ensures rest[3 * i] != key
      {
        assert rest[3 * i] == b[3 * (i + 1)];
      }
      ParseKeeps(rest, acc[b[0] := FromRaw(U16(b[1], b[2]))], key);
    }
  }

  lemma ParsedExactly(b: seq<byte>, key: byte)
    ensures var m := ParseEntries(b, map[]);
            && (key in m <==> exists j: nat :: LastOfItsKey(b, j) && b[3 * j] == key)
            && (forall j: nat :: LastOfItsKey(b, j) && b[3 * j] == key ==>
                  key in m && m[key] == FromRaw(WordAt(b, 3 * j + 1)))
  {
    hide FromRaw, U16, ParseEntries, WordAt;
    forall j: nat | LastOfItsKey(b, j) && b[3 * j] == key
      ensures key in ParseEntries(b, map[]) && ParseEntries(b, map[])[key] == FromRaw(WordAt(b, 3 * j + 1))
    {
      ParsedIsLast(b, map[], j);
      WordIsU16(b, 3 * j + 1);
    }
    if exists i: nat :: 3 * i + 3 <= |b| && b[3 * i] == key {
      var j := LastEntry(b, key);
    } else {
      ParseKeeps(b, map[], key);
    }
  }

  /** What is read from any accepted payload with entries: each key counted, with its last value, and no
      other. */
  lemma DecodedEntries(p: seq<byte>, key: byte)
    requires Decode(p).Ok? && p[6] != 3
    ensures var b := p[8..8 + 3 * p[7] as int];
            var m := Decode(p).value.parameterData;
            && (key in m <==> exists j: nat :: LastOfItsKey(b, j) && b[3 * j] == key)
            && (forall j: nat :: LastOfItsKey(b, j) && b[3 * j] == key ==>
                  key in m && m[key] == FromRaw(WordAt(b, 3 * j + 1)))
  {
    hide FromRaw, U16, U32, ParseEntries, WordAt;
    ParsedExactly(p[8..8 + 3 * p[7] as int], key);
  }

  lemma WordIsU16(b: seq<byte>, i: nat)
    requires i + 2 <= |b|
    ensures WordAt(b, i) == U16(b[i], b[i + 1])
  {
  }

  lemma LastEntry(b: seq<byte>, key: byte) returns (j: nat)
    requires exists i: nat :: 3 * i + 3 <= |b| && b[3 * i] == key
    ensures LastOfItsKey(b, j) && b[3 * j] == key
  {
    var i: nat :| 3 * i + 3 <= |b| && b[3 * i] == key;
    j := |b| / 3 - 1;
    while b[3 * j] != key
      invariant i <= j && 3 * j + 3 <= |b|
      invariant forall n :: j < n && 3 * n + 3 <= |b| ==> b[3 * n] != key
      decreases j
    {
      j := j - 1;
    }
  }

  /** Which payloads are accepted: 18 bytes suffice for main-info; otherwise the entries counted in the
      eighth byte must be there. */
  lemma AcceptedPayload(p: seq<byte>)
    ensures Decode(p).Ok? <==>
              |p| >= 7 && if p[6] == 3 then |p| >= 18 else |p| >= 8 && |p| >= 8 + 3 * p[7] as int
  {
    hide U16, U32, FromRaw, ParseEntries;
  }

  /** What decoding makes of an encoded notification that is not main-info. */
  lemma DecodeEncoded(f: Notification, order: seq<byte>)
    requires IsIteration(order, f.parameterData)
    requires f.statusType != REQUEST_MAIN_INFO && |f.parameterData| <= MAX_ENTRIES
    ensures Decode(Encode(f, order).bytes) ==
              if f.statusCount as int > MAX_ENTRIES then Err
              else Ok(Notification(f.sessionID, f.statusID, f.nodeID, f.runStatus, f.statusReply, f.statusType,
                                   0, 0, 0, 0, 0, f.statusCount, Decoded(f, order)))
  {
    var p := Encode(f, order).bytes;
    Layout(f, order);
    U16RoundTrip(f.sessionID);
    hide Encode, ParseEntries, Entries, Decoded, U16, Hi, Lo;
    assert forall i :: 0 <= i < 8 ==> p[i] == p[..8][i];
    if f.statusCount as int <= MAX_ENTRIES {
      ParseBody(f, order, p[8..8 + 3 * f.statusCount as int]);
    }
  }

  /** For every map and every iteration order: the map and the header come back if and only if all
      values are normalised and the count field fits. */
  lemma MapRoundTripIff(f: Notification, order: seq<byte>)
    requires IsIteration(order, f.parameterData)
    requires f.statusType != REQUEST_MAIN_INFO && |f.parameterData| <= MAX_ENTRIES
    ensures var zeroed := f.(targetPosition := 0, currentPosition := 0, remainingTime := 0,
                             lastMasterExecutionAddress := 0, lastCommandOriginator := 0);
            Decode(Encode(f, order).bytes) == Ok(zeroed)
            <==> AllNormalised(f.parameterData) && CountFits(f.statusCount, f.parameterData)
    ensures f.statusCount as int >= |f.parameterData| ==> |Encode(f, order).bytes| == 59
  {
    DecodeEncoded(f, order);
    Layout(f, order);
    DecodedIsMapIff(f, order);
    hide Decode, Encode, Decoded, CountFits, AllNormalised;
    if f.statusCount as int > MAX_ENTRIES {
      CountTooLarge(f);
    }
  }

  lemma CountTooLarge(f: Notification)
    requires f.statusCount as int > MAX_ENTRIES >= |f.parameterData|
    ensures !CountFits(f.statusCount, f.parameterData)
  {
  }

  lemma DecodedIsMapIff(f: Notification, order: seq<byte>)
    requires IsIteration(order, f.parameterData)
    requires |f.parameterData| <= MAX_ENTRIES
    ensures f.statusCount as int <= MAX_ENTRIES ==>
              (Decoded(f, order) == f.parameterData <==>
               AllNormalised(f.parameterData) && CountFits(f.statusCount, f.parameterData))
  {
    hide FromRaw;
    var m, count := f.parameterData, f.statusCount as int;
    if count < |m| {
      var lost := order[count];
      assert lost in m && lost !in Decoded(f, order);
    } else {
      AllWritten(f, order, Normal(m));
      hide Normal, AllNormalised, Decoded;
      NormalIff(m);
      PaddedIff(m);
    }
  }

  lemma NormalIff(m: map<byte, uint16>)
    ensures Normal(m) == m <==> AllNormalised(m)
  {
    hide FromRaw;
    assert Normal(m) == m ==> forall k :: k in m ==> Normal(m)[k] == m[k];
  }

  lemma PaddedIff(m: map<byte, uint16>)
    ensures Normal(m)[0 := 0] == m <==> AllNormalised(m) && 0 in m && m[0] == 0
  {
    hide FromRaw;
    ZeroIsNormal();
    var padded := Normal(m)[0 := 0];
    if padded == m {
      assert forall k :: k in m && k != 0 ==> m[k] == padded[k] == Normal(m)[k];
    }
    if AllNormalised(m) && 0 in m && m[0] == 0 {
      assert padded.Keys == m.Keys;
    }
  }

  lemma AllWritten(f: Notification, order: seq<byte>, all: map<byte, uint16>)
    requires IsIteration(order, f.parameterData)
    requires f.statusCount as int >= |f.parameterData|
    requires all == Normal(f.parameterData)
    ensures Decoded(f, order) == if f.statusCount as int == |f.parameterData| then all else all[0 := 0]
  {
    hide FromRaw;
    assert order[..Written(f)] == order;
    assert all == NormalOn(f.parameterData, order);
  }

  lemma ZeroIsNormal()
    ensures FromRaw(0) == 0
  {
  }

  /** The main-info form: 18 bytes, faithful exactly for normalised positions. */
  lemma MainInfoRoundTripIff(f: Notification, order: seq<byte>)
    requires IsIteration(order, f.parameterData)
    requires f.statusType == REQUEST_MAIN_INFO
    ensures var p := Encode(f, order).bytes;
            |p| == 18
            && (Decode(p) == Ok(f.(statusCount := 0, parameterData := map[]))
                <==> Normalised(f.targetPosition) && Normalised(f.currentPosition))
  {
    hide Hi, Lo, U16, U32, BE32, FromRaw;
    var p := Encode(f, order).bytes;
    U16RoundTrip(f.sessionID);
    U16RoundTrip(f.targetPosition);
    U16RoundTrip(f.currentPosition);
    U16RoundTrip(f.remainingTime);
    U32RoundTrip(f.lastMasterExecutionAddress);
    assert p[13..17] == BE32(f.lastMasterExecutionAddress);
  }
}
