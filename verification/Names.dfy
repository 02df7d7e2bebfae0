/** Fixed-size, NUL-padded names (app/klf200/protocol/frame_auth_system.go and its twin in
    frame_scenes_wink.go). A name is its UTF-8 bytes. */
module Names {
  import opened Bytes

  function Padding(n: nat): (z: seq<byte>)
    ensures |z| == n && forall i :: 0 <= i < n ==> z[i] == 0
  {
    seq(n, _ => 0)
  }

  function StringToBytes(s: seq<byte>, size: nat): (r: Result<seq<byte>>)
    ensures r.Ok? <==> |s| <= size
    ensures r.Ok? ==> |r.value| == size
  {
    if |s| > size then Err else Ok(s + Padding(size - |s|))
  }

  /** The bytes before the first NUL. */
  function BeforeNul(raw: seq<byte>): (name: seq<byte>)
    ensures name <= raw && 0 !in name
    ensures name == raw || raw[|name|] == 0
  {
    if raw == [] || raw[0] == 0 then []
    else
      var rest := BeforeNul(raw[1..]);
      assert raw == [raw[0]] + raw[1..];
      [raw[0]] + rest
  }

  method BytesToString(raw: seq<byte>) returns (name: seq<byte>)
    ensures name == BeforeNul(raw)
  {
    for i := 0 to |raw|
      invariant 0 !in raw[..i]
    {
      if raw[i] == 0 {
        BeforeNulUnique(raw, raw[..i]);
        return raw[..i];
      }
    }
    assert raw[..|raw|] == raw;
    BeforeNulUnique(raw, raw);
    return raw;
  }

  lemma {:induction false} BeforeNulUnique(raw: seq<byte>, name: seq<byte>)
    requires name <= raw && 0 !in name
    requires name == raw || raw[|name|] == 0
    ensures BeforeNul(raw) == name
  {
    if name != [] {
      assert raw[0] == name[0];
      assert name[1..] == raw[1..|name|];
      BeforeNulUnique(raw[1..], name[1..]);
    }
  }

  /** A padded name reads back exactly when it is free of NUL. */
  lemma NameRoundTripIff(name: seq<byte>, size: nat)
    requires |name| <= size
    ensures BeforeNul(StringToBytes(name, size).value) == name <==> 0 !in name
  {
    var raw := StringToBytes(name, size).value;
    if 0 !in name {
      assert name < raw ==> raw[|name|] == 0;
      BeforeNulUnique(raw, name);
    }
  }
}
