/** GW_GET_SCENE_LIST_NTF (app/klf200/protocol/frame_scenes_wink.go): a counted list of 65-byte
    scene entries and the number of scenes still to come. */
module SceneList {
  import opened Bytes
  import opened Names
  import FrameCodec

  const NAME_LEN := 64
  const ENTRY_LEN := 65

  datatype SceneEntry = SceneEntry(number: byte, name: seq<byte>)

  datatype SceneListNotification = SceneListNotification(scenes: seq<SceneEntry>, remainingScenes: byte)

  // ---------- Specification ----------

  predicate NamesFit(scenes: seq<SceneEntry>) {
    forall i :: 0 <= i < |scenes| ==> |scenes[i].name| <= NAME_LEN
  }

  predicate NamesNulFree(scenes: seq<SceneEntry>) {
    forall i :: 0 <= i < |scenes| ==> 0 !in scenes[i].name
  }

  function EntryBytes(s: SceneEntry): (b: seq<byte>)
    requires |s.name| <= NAME_LEN
    ensures |b| == ENTRY_LEN
  {
    [s.number] + StringToBytes(s.name, NAME_LEN).value
  }

  function EntriesBytes(scenes: seq<SceneEntry>): (b: seq<byte>)
    requires NamesFit(scenes)
    ensures |b| == ENTRY_LEN * |scenes|
  {
    if scenes == [] then [] else EntryBytes(scenes[0]) + EntriesBytes(scenes[1..])
  }

  /** The count byte is the length modulo 256. */
  function Encode(f: SceneListNotification): Result<seq<byte>> {
    if !NamesFit(f.scenes) then Err
    else Ok([|f.scenes| % 0x100] + EntriesBytes(f.scenes) + [f.remainingScenes])
  }

  function EntriesAt(b: seq<byte>, n: nat): (scenes: seq<SceneEntry>)
    requires |b| >= ENTRY_LEN * n
    ensures |scenes| == n
  {
    if n == 0 then []
    else [SceneEntry(b[0], BeforeNul(b[1..ENTRY_LEN]))] + EntriesAt(b[ENTRY_LEN..], n - 1)
  }

  function Decode(p: seq<byte>): Result<SceneListNotification> {
    if |p| < 2 then Err
    else
      var n: int := p[0];
      if |p| != n * ENTRY_LEN + 2 then Err
      else Ok(SceneListNotification(EntriesAt(p[1..|p| - 1], n), p[|p| - 1]))
  }

  // ---------- frame_scenes_wink.go ----------

  method MarshalPayload(f: SceneListNotification) returns (r: Result<seq<byte>>)
    ensures r == Encode(f)
  {
    var buf := [|f.scenes| % 0x100];
    ghost var head := buf;
    for i := 0 to |f.scenes|
      invariant NamesFit(f.scenes[..i])
      invariant buf == head + EntriesBytes(f.scenes[..i])
    {
      var s := f.scenes[i];
      var nameBytes := StringToBytes(s.name, NAME_LEN);
      if nameBytes.Err? {
        return Err;
      }
      EntriesAppend(f.scenes[..i], s);
      assert f.scenes[..i + 1] == f.scenes[..i] + [s];
      buf := buf + [s.number];
      buf := buf + nameBytes.value;
    }
    assert f.scenes[..|f.scenes|] == f.scenes;
    buf := buf + [f.remainingScenes];
    r := Ok(buf);
  }

  lemma {:induction false} EntriesAppend(scenes: seq<SceneEntry>, s: SceneEntry)
    requires NamesFit(scenes) && |s.name| <= NAME_LEN
    ensures NamesFit(scenes + [s])
    ensures EntriesBytes(scenes + [s]) == EntriesBytes(scenes) + EntryBytes(s)
  {
    hide EntryBytes;
    if scenes == [] {
      assert scenes + [s] == [s];
      assert EntriesBytes([s][1..]) == [];
    } else {
      assert (scenes + [s])[1..] == scenes[1..] + [s];
      EntriesAppend(scenes[1..], s);
    }
  }

  method UnmarshalPayload(payload: seq<byte>) returns (r: Result<SceneListNotification>)
    ensures r == Decode(payload)
  {
    if |payload| < 2 {
      return Err;
    }
    var numberOfObjects: int := payload[0];
    var predicted := numberOfObjects * ENTRY_LEN + 2;
    if |payload| != predicted {
      return Err;
    }
    var scenes := [];
    ghost var body := payload[1..|payload| - 1];
    for i := 0 to numberOfObjects
      invariant scenes == EntriesAt(body, i)
    {
      var start := i * ENTRY_LEN + 1;
      var scene := payload[start..start + ENTRY_LEN];
      var name := BytesToString(scene[1..]);
      SubSlice(payload, 1, |payload| - 1, ENTRY_LEN * i, ENTRY_LEN * (i + 1));
      EntriesAtAppend(body, i, scene);
      scenes := scenes + [SceneEntry(scene[0], name)];
    }
    r := Ok(SceneListNotification(scenes, payload[|payload| - 1]));
  }

  lemma SubSlice<T>(s: seq<T>, lo: nat, hi: nat, from: nat, to: nat)
    requires lo + from <= lo + to <= hi <= |s|
    ensures s[lo..hi][from..to] == s[lo + from..lo + to]
  {
    var inner, outer := s[lo..hi][from..to], s[lo + from..lo + to];
    assert |inner| == |outer|;
    forall i | 0 <= i < |inner|
      ensures inner[i] == outer[i]
    {
      assert s[lo..hi][from + i] == s[lo + (from + i)];
    }
  }

  lemma {:induction false} EntriesAtAppend(b: seq<byte>, n: nat, scene: seq<byte>)
    requires |b| >= ENTRY_LEN * (n + 1)
    requires scene == b[ENTRY_LEN * n..ENTRY_LEN * (n + 1)]
    ensures EntriesAt(b, n + 1) == EntriesAt(b, n) + [SceneEntry(scene[0], BeforeNul(scene[1..]))]
  {
    hide BeforeNul;
    if n == 0 {
      assert scene == b[..ENTRY_LEN];
      assert scene[1..] == b[1..ENTRY_LEN];
    } else {
      var rest := b[ENTRY_LEN..];
      SubSlice(b, ENTRY_LEN, |b|, ENTRY_LEN * (n - 1), ENTRY_LEN * n);
      assert b[ENTRY_LEN..|b|] == rest;
      EntriesAtAppend(rest, n - 1, scene);
    }
  }

  // ---------- Layout ----------

  /** 65 bytes hold a scene: its number and its name, padded with zeros. */
  predicate IsEntry(entry: seq<byte>, s: SceneEntry) {
    && |entry| == 65 && |s.name| <= 64 && entry[0] == s.number && entry[1..|s.name| + 1] == s.name
    && forall k :: |s.name| < k < 65 ==> entry[k] == 0
  }

  lemma EntryLayout(s: SceneEntry)
    requires |s.name| <= NAME_LEN
    ensures IsEntry(EntryBytes(s), s)
  {
    var entry := EntryBytes(s);
    assert entry == [s.number] + s.name + Padding(NAME_LEN - |s.name|);
  }

  lemma {:induction false} EntriesLayout(scenes: seq<SceneEntry>, j: nat)
    requires NamesFit(scenes) && j < |scenes|
    ensures 65 * j + 65 <= |EntriesBytes(scenes)|
    ensures IsEntry(EntriesBytes(scenes)[65 * j..65 * j + 65], scenes[j])
  {
    hide EntryBytes, IsEntry;
    var b, rest := EntriesBytes(scenes), scenes[1..];
    if j > 0 {
      EntriesLayout(rest, j - 1);
      assert b[65..|b|] == EntriesBytes(rest);
      SubSlice(b, 65, |b|, 65 * (j - 1), 65 * j);
      assert rest[j - 1] == scenes[j];
    } else {
      EntryLayout(scenes[0]);
      assert b[..65] == EntryBytes(scenes[0]);
    }
  }

  /** Every byte of a written list, and when there is one. */
  lemma SceneListLayout(f: SceneListNotification)
    ensures Encode(f).Ok? <==> forall i :: 0 <= i < |f.scenes| ==> |f.scenes[i].name| <= 64
    ensures Encode(f).Ok? ==>
              var p := Encode(f).value;
              && |p| == 65 * |f.scenes| + 2 && p[0] as int == |f.scenes| % 256
              && (forall j :: 0 <= j < |f.scenes| ==> IsEntry(p[65 * j + 1..65 * j + 66], f.scenes[j]))
              && p[|p| - 1] == f.remainingScenes
  {
    if NamesFit(f.scenes) {
      hide EntriesBytes, IsEntry;
      var p, b := Encode(f).value, EntriesBytes(f.scenes);
      assert p[1..|p| - 1] == b;
      forall j | 0 <= j < |f.scenes|
        ensures IsEntry(p[65 * j + 1..65 * j + 66], f.scenes[j])
      {
        EntriesLayout(f.scenes, j);
        SubSlice(p, 1, |p| - 1, 65 * j, 65 * j + 65);
      }
    }
  }

  /** Exactly the payloads whose first byte counts their 65-byte entries are accepted. */
  lemma AcceptedPayload(p: seq<byte>)
    ensures Decode(p).Ok? <==> |p| >= 2 && |p| == 65 * p[0] as int + 2
  {
    hide EntriesAt;
  }

  // ---------- Round trip ----------

  /** What the decoder reads from one written entry. */
  function Readable(s: SceneEntry): SceneEntry
    requires |s.name| <= NAME_LEN
  {
    SceneEntry(s.number, BeforeNul(StringToBytes(s.name, NAME_LEN).value))
  }

  lemma {:induction false} EntriesRoundTripIff(scenes: seq<SceneEntry>)
    requires NamesFit(scenes)
    ensures EntriesAt(EntriesBytes(scenes), |scenes|) == scenes <==> NamesNulFree(scenes)
  {
    if scenes != [] {
      var s, rest := scenes[0], scenes[1..];
      hide BeforeNul, StringToBytes;
      var b := EntriesBytes(scenes);
      EntriesRoundTripIff(rest);
      NameRoundTripIff(s.name, NAME_LEN);
      assert b[1..ENTRY_LEN] == StringToBytes(s.name, NAME_LEN).value;
      assert b[ENTRY_LEN..] == EntriesBytes(rest);
      var back := EntriesAt(b, |scenes|);
      assert back == [Readable(s)] + EntriesAt(EntriesBytes(rest), |rest|);
      assert back[1..] == EntriesAt(EntriesBytes(rest), |rest|);
      assert scenes == [s] + rest;
      assert NamesNulFree(scenes) <==> 0 !in s.name && NamesNulFree(rest) by {
        assert forall i :: 0 <= i < |rest| ==> rest[i] == scenes[i + 1];
      }
    }
  }

  /** The list comes back if and only if it has at most 255 scenes with NUL-free names of at most
      64 bytes. */
  lemma SceneListRoundTripIff(f: SceneListNotification)
    ensures (Encode(f).Ok? && Decode(Encode(f).value) == Ok(f))
            <==> |f.scenes| <= 255 && NamesFit(f.scenes) && NamesNulFree(f.scenes)
  {
    if NamesFit(f.scenes) {
      hide EntriesBytes, EntriesAt, NamesNulFree, NamesFit;
      var p, n := Encode(f).value, |f.scenes|;
      assert |p| == ENTRY_LEN * n + 2;
      assert p[1..|p| - 1] == EntriesBytes(f.scenes);
      EntriesRoundTripIff(f.scenes);
    }
  }

  /** The payload survives framing if and only if it lists at most three scenes. */
  lemma SceneListFramesIff(f: SceneListNotification, command: FrameCodec.Command)
    requires Encode(f).Ok?
    ensures FrameCodec.ExtractFromFrame(FrameCodec.FrameBytes(command, Encode(f).value))
            == Ok((command, Encode(f).value))
            <==> |f.scenes| <= 3
  {
    hide FrameCodec.ExtractFromFrame, FrameCodec.FrameBytes, EntriesBytes;
    FrameCodec.ExtractInvertsBuildIff(command, Encode(f).value);
    assert |Encode(f).value| == ENTRY_LEN * |f.scenes| + 2;
  }
}
