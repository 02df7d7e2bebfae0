/** SLIP framing (RFC 1055, "PROTOCOL" section) as app/klf200/protocol/slip.go does it:
    escaping and unescaping are two successive substring-replacement passes. */
module Slip {
  import opened Bytes

  const END: byte := 0xC0
  const ESC: byte := 0xDB
  const ESC_END: byte := 0xDC
  const ESC_ESC: byte := 0xDD

  // ---------- Library calls ----------

  /** Position of the first b in s, or -1. */
  function IndexByte(s: seq<byte>, b: byte): (i: int)
    ensures -1 <= i < |s|
    ensures i == -1 <==> b !in s
    ensures i >= 0 ==> s[i] == b && b !in s[..i]
  {
    if s == [] then -1
    else if s[0] == b then 0
    else
      var j := IndexByte(s[1..], b);
      assert s == [s[0]] + s[1..];
      if j == -1 then -1 else
      assert s[..j + 1] == [s[0]] + s[1..][..j];
      j + 1
  }

  lemma {:induction false} FirstIndex(s: seq<byte>, b: byte, k: nat)
    requires k < |s| && s[k] == b && b !in s[..k]
    ensures IndexByte(s, b) == k
  {
    if k > 0 {
      assert s[0] in s[..k];
      assert s[..k] == [s[0]] + s[1..][..k - 1];
      FirstIndex(s[1..], b, k - 1);
    }
  }

  /** Leftmost, non-overlapping replacement of every occurrence of a non-empty pattern. */
  function ReplaceAll(s: seq<byte>, from: seq<byte>, to: seq<byte>): seq<byte>
    requires from != []
    decreases |s|
  {
    if s == [] then []
    else if from <= s then to + ReplaceAll(s[|from|..], from, to)
    else [s[0]] + ReplaceAll(s[1..], from, to)
  }

  // ---------- slip.go ----------

  function SlipEncode(raw: seq<byte>): seq<byte> {
    ReplaceAll(ReplaceAll(raw, [ESC], [ESC, ESC_ESC]), [END], [ESC, ESC_END])
  }

  function SlipDecode(raw: seq<byte>): seq<byte> {
    ReplaceAll(ReplaceAll(raw, [ESC, ESC_END], [END]), [ESC, ESC_ESC], [ESC])
  }

  function SlipPack(raw: seq<byte>): seq<byte> {
    [END] + SlipEncode(raw) + [END]
  }

  predicate IsSlip(raw: seq<byte>) {
    |raw| >= 2 && raw[0] == END && IndexByte(raw[1..], END) != -1
  }

  /** The next packet and the unconsumed rest. Replacement on an empty slice yields a nil slice,
      so an empty body is consumed yet comes back as "no packet". */
  function GetNextSlip(raw: seq<byte>): (r: (Option<seq<byte>>, seq<byte>))
    ensures !IsSlip(raw) ==> r == (None, raw)
    ensures IsSlip(raw) ==> |r.1| + 2 <= |raw| && (r.0.None? <==> Body(raw) == [])
    ensures IsSlip(raw) ==> raw == [END] + Body(raw) + [END] + r.1 && END !in Body(raw)
  {
    if !IsSlip(raw) then (None, raw)
    else
      var length := IndexByte(raw[1..], END);
      var body := raw[1..length + 1];
      assert body == raw[1..][..length];
      assert raw == [END] + body + [END] + raw[length + 2..];
      (if body == [] then None else Some(SlipDecode(body)), raw[length + 2..])
  }

  /** The escaped bytes between the two END markers of the first packet. */
  function Body(raw: seq<byte>): seq<byte>
    requires IsSlip(raw)
  {
    raw[1..IndexByte(raw[1..], END) + 1]
  }

  // ---------- Reference forms: one left-to-right pass ----------

  function EscapeByte(b: byte): seq<byte> {
    if b == ESC then [ESC, ESC_ESC] else if b == END then [ESC, ESC_END] else [b]
  }

  function Escape(s: seq<byte>): seq<byte> {
    if s == [] then [] else EscapeByte(s[0]) + Escape(s[1..])
  }

  function Unescape(s: seq<byte>): seq<byte> {
    if |s| >= 2 && s[0] == ESC && s[1] == ESC_END then [END] + Unescape(s[2..])
    else if |s| >= 2 && s[0] == ESC && s[1] == ESC_ESC then [ESC] + Unescape(s[2..])
    else if s == [] then []
    else [s[0]] + Unescape(s[1..])
  }

  /** A body every ESC of which starts an escape pair, and which holds no END. */
  predicate WellEscaped(s: seq<byte>) {
    if s == [] then true
    else if s[0] == END then false
    else if s[0] == ESC then |s| >= 2 && (s[1] == ESC_END || s[1] == ESC_ESC) && WellEscaped(s[2..])
    else WellEscaped(s[1..])
  }

  // ---------- Two passes equal one pass ----------

  /** One step of a replacement whose pattern does not start the string. */
  lemma ReplaceSkips(head: byte, tail: seq<byte>, from: seq<byte>, to: seq<byte>)
    requires from != []
    requires from[0] != head || (|from| > 1 && (tail == [] || tail[0] != from[1]))
    ensures ReplaceAll([head] + tail, from, to) == [head] + ReplaceAll(tail, from, to)
  {
    var s := [head] + tail;
    assert s[1..] == tail;
  }

  /** One step of a replacement whose pattern does start the string. */
  lemma ReplaceHits(tail: seq<byte>, from: seq<byte>, to: seq<byte>)
    requires from != []
    ensures ReplaceAll(from + tail, from, to) == to + ReplaceAll(tail, from, to)
  {
    assert (from + tail)[|from|..] == tail;
  }

  /** Both passes of the encoder on the first byte. */
  lemma EncodeStep(b: byte, tail: seq<byte>)
    ensures SlipEncode([b] + tail) == EscapeByte(b) + SlipEncode(tail)
  {
    hide ReplaceAll;
    var p1, p2 := [ESC], [END];
    var once := ReplaceAll(tail, p1, [ESC, ESC_ESC]);
    if b == ESC {
      ReplaceHits(tail, p1, [ESC, ESC_ESC]);
      ReplaceSkips(ESC_ESC, once, p2, [ESC, ESC_END]);
      ReplaceSkips(ESC, [ESC_ESC] + once, p2, [ESC, ESC_END]);
      assert [ESC, ESC_ESC] + once == [ESC] + ([ESC_ESC] + once);
    } else {
      ReplaceSkips(b, tail, p1, [ESC, ESC_ESC]);
      if b == END {
        ReplaceHits(once, p2, [ESC, ESC_END]);
      } else {
        ReplaceSkips(b, once, p2, [ESC, ESC_END]);
      }
    }
  }

  lemma {:induction false} EncodeIsEscape(s: seq<byte>)
    ensures SlipEncode(s) == Escape(s)
  {
    if s != [] {
      EncodeStep(s[0], s[1..]);
      EncodeIsEscape(s[1..]);
      assert s == [s[0]] + s[1..];
      hide SlipEncode, EscapeByte;
    }
  }

  /** On every byte string, also one that is not properly escaped, the two replacement passes of
      the decoder agree with a single left-to-right unescaper. */
  lemma {:induction false} DecodeIsUnescape(s: seq<byte>)
    ensures SlipDecode(s) == Unescape(s)
    decreases |s|
  {
    var p1, p2 := [ESC, ESC_END], [ESC, ESC_ESC];
    if s == [] {
    } else if |s| >= 2 && s[0] == ESC && s[1] == ESC_END {
      DecodeIsUnescape(s[2..]);
      assert s == p1 + s[2..];
      ReplaceHits(s[2..], p1, [END]);
      ReplaceSkips(END, ReplaceAll(s[2..], p1, [END]), p2, [ESC]);
    } else if |s| >= 2 && s[0] == ESC && s[1] == ESC_ESC {
      DecodeIsUnescape(s[2..]);
      assert s == [ESC] + ([ESC_ESC] + s[2..]);
      ReplaceSkips(ESC, [ESC_ESC] + s[2..], p1, [END]);
      ReplaceSkips(ESC_ESC, s[2..], p1, [END]);
      var once := ReplaceAll(s[2..], p1, [END]);
      assert [ESC] + ([ESC_ESC] + once) == p2 + once;
      ReplaceHits(once, p2, [ESC]);
    } else {
      DecodeIsUnescape(s[1..]);
      assert s == [s[0]] + s[1..];
      ReplaceSkips(s[0], s[1..], p1, [END]);
      FirstPassKeepsHead(s[1..]);
      ReplaceSkips(s[0], ReplaceAll(s[1..], p1, [END]), p2, [ESC]);
    }
  }

  /** The first decoding pass never brings an ESC_ESC to the front. */
  lemma FirstPassKeepsHead(s: seq<byte>)
    ensures var once := ReplaceAll(s, [ESC, ESC_END], [END]);
            once != [] && once[0] == ESC_ESC ==> s != [] && s[0] == ESC_ESC
  {
  }

  // ---------- What the encoding is for ----------

  lemma {:induction false} EscapeIsWellEscaped(s: seq<byte>)
    ensures WellEscaped(Escape(s)) && END !in Escape(s)
    ensures Escape(s) == [] <==> s == []
  {
    if s != [] {
      EscapeIsWellEscaped(s[1..]);
      var rest := Escape(s[1..]);
      if s[0] == ESC || s[0] == END {
        assert (EscapeByte(s[0]) + rest)[2..] == rest;
      } else {
        assert ([s[0]] + rest)[1..] == rest;
      }
    }
  }

  lemma {:induction false} UnescapeEscape(s: seq<byte>)
    ensures Unescape(Escape(s)) == s
  {
    if s != [] {
      UnescapeEscape(s[1..]);
      var rest := Escape(s[1..]);
      if s[0] == ESC || s[0] == END {
        assert (EscapeByte(s[0]) + rest)[2..] == rest;
      } else {
        assert ([s[0]] + rest)[1..] == rest;
      }
    }
  }

  /** Decoding undoes encoding, the encoding hides every END, and only the empty message encodes
      to an empty body. */
  lemma SlipRoundTrip(s: seq<byte>)
    ensures SlipDecode(SlipEncode(s)) == s
    ensures END !in SlipEncode(s)
    ensures SlipEncode(s) == [] <==> s == []
  {
    EncodeIsEscape(s);
    EscapeIsWellEscaped(s);
    DecodeIsUnescape(Escape(s));
    UnescapeEscape(s);
  }

  lemma {:induction false} EscapeAppend(s: seq<byte>, b: byte)
    ensures Escape(s + [b]) == Escape(s) + EscapeByte(b)
  {
    if s == [] {
      assert s + [b] == [b];
      assert EscapeByte(b) + Escape([b][1..]) == EscapeByte(b);
    } else {
      assert (s + [b])[1..] == s[1..] + [b];
      EscapeAppend(s[1..], b);
    }
  }

  /** The wire form, byte by byte, with the numbers of RFC 1055. */
  lemma EncodingOnWire(s: seq<byte>, b: byte)
    ensures SlipEncode([]) == [] && SlipPack(s) == [192] + SlipEncode(s) + [192]
    ensures SlipEncode(s + [b])
            == SlipEncode(s) + if b == 192 then [219, 220] else if b == 219 then [219, 221] else [b]
  {
    EncodeIsEscape(s);
    EncodeIsEscape(s + [b]);
    EscapeAppend(s, b);
    hide SlipEncode, Escape;
    EncodeIsEscape([]);
    EscapeNothing();
  }

  lemma EscapeNothing()
    ensures Escape([]) == []
  {
  }

  lemma {:induction false} EscapeUnescape(s: seq<byte>)
    ensures Escape(Unescape(s)) == s <==> WellEscaped(s)
    decreases |s|
  {
    if s == [] {
    } else if |s| >= 2 && s[0] == ESC && (s[1] == ESC_END || s[1] == ESC_ESC) {
      EscapeUnescape(s[2..]);
      var b := if s[1] == ESC_END then END else ESC;
      assert ([b] + Unescape(s[2..]))[1..] == Unescape(s[2..]);
      assert Escape(Unescape(s)) == s[..2] + Escape(Unescape(s[2..]));
      assert s == s[..2] + s[2..];
    } else {
      EscapeUnescape(s[1..]);
      assert ([s[0]] + Unescape(s[1..]))[1..] == Unescape(s[1..]);
      assert Escape(Unescape(s)) == EscapeByte(s[0]) + Escape(Unescape(s[1..]));
      assert s == [s[0]] + s[1..];
      if s[0] != ESC && s[0] != END && Escape(Unescape(s)) == s {
        assert s[1..] == ([s[0]] + Escape(Unescape(s[1..])))[1..];
      }
    }
  }

  /** Encoding restores a body from its decoding exactly when the body is properly escaped. */
  lemma ReencodeIff(body: seq<byte>)
    ensures SlipEncode(SlipDecode(body)) == body <==> WellEscaped(body)
  {
    DecodeIsUnescape(body);
    EncodeIsEscape(Unescape(body));
    EscapeUnescape(body);
  }

  /** The tokenizer splits any END-delimited body off the front of a stream. */
  lemma NextOfDelimited(s: seq<byte>, body: seq<byte>, rest: seq<byte>)
    requires END !in body
    requires s == [END] + body + [END] + rest
    ensures IsSlip(s) && Body(s) == body
    ensures GetNextSlip(s) == (if body == [] then None else Some(SlipDecode(body)), rest)
  {
    assert s[1..] == body + [END] + rest;
    assert s[1..][|body|] == END;
    var i := IndexByte(s[1..], END);
    assert s[1..][..|body|] == body;
    FirstIndex(s[1..], END, |body|);
    assert s[1..i + 1] == body;
    assert s[i + 2..] == rest;
  }

  /** A non-empty message packed in front of a stream is exactly what the tokenizer returns first. */
  lemma NextOfPacked(msg: seq<byte>, rest: seq<byte>)
    requires msg != []
    ensures IsSlip(SlipPack(msg) + rest)
    ensures GetNextSlip(SlipPack(msg) + rest) == (Some(msg), rest)
  {
    SlipRoundTrip(msg);
    NextOfDelimited(SlipPack(msg) + rest, SlipEncode(msg), rest);
  }
}
