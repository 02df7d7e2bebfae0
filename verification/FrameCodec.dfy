/** The raw KLF200 frame of app/klf200/protocol/frame.go: protocol id, length byte, big-endian
    command, payload and a trailing XOR checksum. */
module FrameCodec {
  import opened Bytes

  type Command = uint16

  /** The longest payload the one-byte length field can describe. */
  const MAX_PAYLOAD := 252

  // ---------- Specification ----------

  /** The exclusive or of all bytes. */
  function Checksum(raw: seq<byte>): byte {
    if raw == [] then 0 else Xor(Checksum(raw[..|raw| - 1]), raw[|raw| - 1])
  }

  /** Protocol id 0, the packet length truncated to a byte, the command, the payload. */
  function Unsigned(command: Command, payload: seq<byte>): seq<byte> {
    [0, (2 + |payload| + 1) % 0x100, Hi(command), Lo(command)] + payload
  }

  function FrameBytes(command: Command, payload: seq<byte>): seq<byte> {
    Unsigned(command, payload) + [Checksum(Unsigned(command, payload))]
  }

  /** The number of bytes that have bit k set. */
  function BitCount(raw: seq<byte>, k: nat): nat {
    if raw == [] then 0 else BitCount(raw[..|raw| - 1], k) + if Bit(raw[|raw| - 1], k) then 1 else 0
  }

  lemma {:induction false} ChecksumParity(raw: seq<byte>, k: nat)
    requires k < 8
    ensures Bit(Checksum(raw), k) <==> BitCount(raw, k) % 2 == 1
  {
    if raw == [] {
      ZeroBits(k);
    } else {
      ChecksumParity(raw[..|raw| - 1], k);
      XorBit(Checksum(raw[..|raw| - 1]), raw[|raw| - 1], k);
    }
  }

  /** Every bit occurs in an even number of the bytes. */
  predicate Balanced(raw: seq<byte>) {
    forall k :: 0 <= k < 8 ==> BitCount(raw, k) % 2 == 0
  }

  lemma BitBalance(raw: seq<byte>, crc: byte, k: nat)
    requires k < 8
    ensures BitCount(raw + [crc], k) % 2 == 0 <==> (Bit(Checksum(raw), k) <==> Bit(crc, k))
  {
    hide Checksum, Bit;
    assert (raw + [crc])[..|raw|] == raw;
    ChecksumParity(raw, k);
  }

  /** The checksum is the one byte that balances the bits. */
  lemma ChecksumIff(raw: seq<byte>, crc: byte)
    ensures crc == Checksum(raw) <==> Balanced(raw + [crc])
  {
    hide Checksum, Bit, BitCount;
    forall k | 0 <= k < 8
      ensures BitCount(raw + [crc], k) % 2 == 0 <==> (Bit(Checksum(raw), k) <==> Bit(crc, k))
    {
      BitBalance(raw, crc, k);
    }
    if Balanced(raw + [crc]) {
      forall k | 0 <= k < 8
        ensures Bit(Checksum(raw), k) <==> Bit(crc, k)
      {
        assert BitCount(raw + [crc], k) % 2 == 0;
      }
      ByteOfBits(Checksum(raw), crc);
    }
  }

  // ---------- frame.go ----------

  /** Every bit of the result is set exactly if an odd number of the bytes have it set. */
  method CalcCRC(raw: seq<byte>) returns (crc: byte)
    ensures crc == Checksum(raw)
    ensures forall k :: 0 <= k < 8 ==> (Bit(crc, k) <==> BitCount(raw, k) % 2 == 1)
  {
    crc := 0;
    for i := 0 to |raw|
      invariant crc == Checksum(raw[..i])
    {
      assert raw[..i + 1][..i] == raw[..i];
      crc := Xor(crc, raw[i]);
    }
    assert raw[..|raw|] == raw;
    hide Checksum, Bit, BitCount;
    forall k | 0 <= k < 8
      ensures Bit(crc, k) <==> BitCount(raw, k) % 2 == 1
    {
      ChecksumParity(raw, k);
    }
  }

  /** A frame as the gateway reads it: protocol id, truncated length, command and payload, and a last
      byte that balances the bits. */
  predicate IsFrame(data: seq<byte>, command: Command, payload: seq<byte>) {
    && |data| == |payload| + 5
    && data[0] == 0 && data[1] as int == (|payload| + 3) % 256
    && data[2] as int * 256 + data[3] as int == command as int
    && data[4..|data| - 1] == payload
    && Balanced(data)
  }

  lemma FrameBytesAreFrame(command: Command, payload: seq<byte>)
    ensures IsFrame(FrameBytes(command, payload), command, payload)
  {
    hide Checksum, Balanced;
    ChecksumIff(Unsigned(command, payload), Checksum(Unsigned(command, payload)));
    var data := FrameBytes(command, payload);
    assert data[4..|data| - 1] == payload;
  }

  /** A command and a payload have only one frame. */
  lemma FrameIsFrameBytes(data: seq<byte>, command: Command, payload: seq<byte>)
    requires IsFrame(data, command, payload)
    ensures data == FrameBytes(command, payload)
  {
    hide Checksum, Balanced;
    var n := |data| - 1;
    assert data[..n] == Unsigned(command, payload);
    assert data == data[..n] + [data[n]];
    ChecksumIff(data[..n], data[n]);
  }

  method BuildFrame(command: Command, payload: seq<byte>) returns (ret: seq<byte>)
    ensures ret == FrameBytes(command, payload)
    ensures IsFrame(ret, command, payload)
  {
    FrameBytesAreFrame(command, payload);
    hide IsFrame;
    var packetLength := 2 + |payload| + 1;
    ret := [];
    ret := ret + [0, packetLength % 0x100];
    ret := ret + [Hi(command), Lo(command)];
    ret := ret + payload;
    assert ret == Unsigned(command, payload);
    var crc := CalcCRC(ret);
    ret := ret + [crc];
  }

  function ExtractFromFrame(data: seq<byte>): (r: Result<(Command, seq<byte>)>)
    ensures r.Ok? ==> |data| > 4 && |r.value.1| == |data| - 5
  {
    if |data| <= 4 then Err
    else
      var length := data[0] as int * 0x100 + data[1] as int - 1;
      if |data| != length + 3 then Err
      else if Checksum(data[..|data| - 1]) != data[|data| - 1] then Err
      else Ok((U16(data[2], data[3]), data[4..|data| - 1]))
  }

  /** Exactly the inputs are accepted whose first two bytes are the length and whose bits
      are balanced; the result is what stands between. */
  lemma AcceptedIff(data: seq<byte>)
    ensures ExtractFromFrame(data).Ok? <==>
              && |data| >= 5 && data[0] as int * 256 + data[1] as int == |data| - 2
              && Balanced(data)
    ensures ExtractFromFrame(data).Ok? ==>
              var (command, payload) := ExtractFromFrame(data).value;
              command as int == data[2] as int * 256 + data[3] as int && payload == data[4..|data| - 1]
  {
    hide Checksum, Balanced;
    if |data| >= 5 {
      var n := |data| - 1;
      assert data[..n] + [data[n]] == data;
      ChecksumIff(data[..n], data[n]);
    }
  }

  // ---------- Round trip ----------

  /** Framing is faithful exactly up to 252 payload bytes; any longer payload is rejected, never
      silently shortened. */
  lemma ExtractInvertsBuildIff(command: Command, payload: seq<byte>)
    ensures |payload| <= MAX_PAYLOAD ==> ExtractFromFrame(FrameBytes(command, payload)) == Ok((command, payload))
    ensures |payload| > MAX_PAYLOAD ==> ExtractFromFrame(FrameBytes(command, payload)) == Err
  {
    var data := FrameBytes(command, payload);
    assert data[..|data| - 1] == Unsigned(command, payload);
    assert data[4..|data| - 1] == payload;
  }

  /** An accepted input is the frame built from its own command and payload exactly when its first
      byte is the protocol id 0. */
  lemma AcceptedIsBuiltIff(data: seq<byte>)
    requires ExtractFromFrame(data).Ok?
    ensures var (command, payload) := ExtractFromFrame(data).value;
            FrameBytes(command, payload) == data <==> data[0] == 0
  {
    var (command, payload) := ExtractFromFrame(data).value;
    if data[0] == 0 {
      assert data[..|data| - 1] == data[..4] + payload;
      assert data == data[..|data| - 1] + [data[|data| - 1]];
      assert Unsigned(command, payload) == data[..|data| - 1];
    }
  }

  // ---------- Error detection ----------

  lemma {:induction false} ChecksumSeesOneByte(raw: seq<byte>, i: nat, b: byte)
    requires i < |raw| && b != raw[i]
    ensures Checksum(raw[i := b]) != Checksum(raw)
  {
    var n := |raw| - 1;
    var other := raw[i := b];
    if i == n {
      assert other[..n] == raw[..n];
      if Checksum(other) == Checksum(raw) {
        XorCancelLeft(Checksum(raw[..n]), b, raw[n]);
      }
    } else {
      assert other[..n] == raw[..n][i := b];
      ChecksumSeesOneByte(raw[..n], i, b);
      if Checksum(other) == Checksum(raw) {
        XorCancelRight(raw[n], Checksum(other[..n]), Checksum(raw[..n]));
      }
    }
  }

  /** Any change of any single byte of an accepted frame makes it rejected. */
  lemma SingleByteErrorDetected(data: seq<byte>, i: nat, b: byte)
    requires ExtractFromFrame(data).Ok?
    requires i < |data| && b != data[i]
    ensures ExtractFromFrame(data[i := b]) == Err
  {
    var n := |data| - 1;
    var bad := data[i := b];
    if 2 <= i < n {
      assert bad[..n] == data[..n][i := b];
      ChecksumSeesOneByte(data[..n], i, b);
    } else if i == n {
      assert bad[..n] == data[..n];
    }
  }
}
