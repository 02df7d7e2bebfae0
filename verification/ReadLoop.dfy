/** The connection's reader (app/klf200/connection.go readLoop) over FrameFromRaw
    (app/klf200/protocol/creation.go): an arbitrarily fragmented byte stream becomes frames. */
module ReadLoop {
  import opened Bytes
  import opened Slip
  import opened FrameCodec

  // ---------- creation.go ----------

  /** The frame types known by command code, each with its payload decoder (None: decode error). */
  type Registry<!F> = map<Command, seq<byte> -> Option<F>>

  /** Err: malformed frame or payload. Ok(None): a command nobody registered. */
  function FrameFromRaw<F>(registry: Registry<F>, raw: seq<byte>): Result<Option<F>> {
    match ExtractFromFrame(raw)
    case Err => Err
    case Ok((command, payload)) =>
      if command !in registry then Ok(None)
      else match registry[command](payload)
           case None => Err
           case Some(frame) => Ok(Some(frame))
  }

  /** The frame a packet is dispatched as; malformed and unknown packets are skipped alike. */
  function FrameOf<F>(registry: Registry<F>, packet: seq<byte>): Option<F> {
    match FrameFromRaw(registry, packet)
    case Ok(Some(frame)) => Some(frame)
    case _ => None
  }

  function FramesOf<F>(registry: Registry<F>, packets: seq<seq<byte>>): seq<F> {
    if packets == [] then []
    else (match FrameOf(registry, packets[0]) case Some(frame) => [frame] case None => [])
         + FramesOf(registry, packets[1..])
  }

  // ---------- Specification of the reader ----------

  /** One drain of the buffer: it stops at an incomplete packet and also right after an empty one. */
  function Drain(s: seq<byte>): (seq<seq<byte>>, seq<byte>)
    decreases |s|
  {
    if !IsSlip(s) then ([], s)
    else match GetNextSlip(s)
         case (None, rest) => ([], rest)
         case (Some(packet), rest) => var (more, end) := Drain(rest); ([packet] + more, end)
  }

  /** All reads of a connection: packets in order, and the bytes left in the buffer. */
  function Feed(s: seq<byte>, chunks: seq<seq<byte>>): (seq<seq<byte>>, seq<byte>)
    decreases |chunks|
  {
    if chunks == [] then ([], s)
    else if chunks[0] == [] then Feed(s, chunks[1..])
    else
      var (packets, rest) := Drain(s + chunks[0]);
      var (more, end) := Feed(rest, chunks[1..]);
      (packets + more, end)
  }

  function Concat(chunks: seq<seq<byte>>): seq<byte> {
    if chunks == [] then [] else chunks[0] + Concat(chunks[1..])
  }

  // ---------- readLoop ----------

  class Reader<!F> {
    const registry: Registry<F>
    var stream: seq<byte>
    var dispatched: seq<F>           // arguments of dispatch, in order
    ghost var packets: seq<seq<byte>> // everything handed to FrameFromRaw, in order

    constructor (registry: Registry<F>)
      ensures this.registry == registry
      ensures stream == [] && dispatched == [] && packets == []
    {
      this.registry := registry;
      stream, dispatched, packets := [], [], [];
    }

    ghost predicate Valid()
      reads this
    {
      dispatched == FramesOf(registry, packets)
    }

    /** One successful read of n bytes followed by the drain of every complete packet. */
    method Read(chunk: seq<byte>)
      requires Valid()
      modifies this
      ensures Valid()
      ensures packets == old(packets) + Feed(old(stream), [chunk]).0
      ensures stream == Feed(old(stream), [chunk]).1
    {
      hide IsSlip, GetNextSlip, Drain, Feed, FramesOf, FrameFromRaw;
      FeedOne(stream, chunk);
      assert packets + [] == packets;
      if |chunk| > 0 {
        stream := stream + chunk;
        ghost var (due, end) := Drain(stream);
        ghost var taken: nat := 0;
        while IsSlip(stream)
          invariant Valid()
          invariant taken <= |due| && packets == old(packets) + due[..taken]
          invariant Drain(stream) == (due[taken..], end)
          decreases |stream|
        {
          DrainStep(stream);
          var (packet, rest) := GetNextSlip(stream);
          stream := rest;
          if packet.None? {
            return;
          }
          FramesOfAppend(registry, packets, packet.value);
          assert due[taken..] == [packet.value] + Drain(rest).0;
          assert due[taken + 1..] == due[taken..][1..] == Drain(rest).0;
          packets, taken := packets + [packet.value], taken + 1;
          var frame := FrameFromRaw(registry, packet.value);
          if frame.Err? {
            continue;
          }
          if frame.value.Some? {
            dispatched := dispatched + [frame.value.value];
          }
        }
        DrainStep(stream);
      }
    }

    /** The whole life of a connection. */
    method ReadAll(chunks: seq<seq<byte>>)
      requires Valid()
      modifies this
      ensures Valid()
      ensures packets == old(packets) + Feed(old(stream), chunks).0
      ensures stream == Feed(old(stream), chunks).1
    {
      hide Drain, FramesOf, Feed;
      FeedNothing(stream);
      assert packets == packets + [];
      for i := 0 to |chunks|
        invariant Valid()
        invariant packets == old(packets) + Feed(old(stream), chunks[..i]).0
        invariant stream == Feed(old(stream), chunks[..i]).1
      {
        FeedAppend(old(stream), chunks[..i], chunks[i]);
        assert chunks[..i + 1] == chunks[..i] + [chunks[i]];
        Read(chunks[i]);
      }
      assert chunks[..|chunks|] == chunks;
    }
  }

  lemma DrainStep(s: seq<byte>)
    ensures !IsSlip(s) ==> Drain(s) == ([], s)
    ensures IsSlip(s) ==>
              var (packet, rest) := GetNextSlip(s);
              Drain(s) == match packet
                          case None => ([], rest)
                          case Some(p) => ([p] + Drain(rest).0, Drain(rest).1)
  {
    hide IsSlip, GetNextSlip;
  }

  lemma {:induction false} FramesOfAppend<F>(registry: Registry<F>, packets: seq<seq<byte>>, packet: seq<byte>)
    ensures FramesOf(registry, packets + [packet])
            == match FrameFromRaw(registry, packet)
               case Ok(Some(frame)) => FramesOf(registry, packets) + [frame]
               case _ => FramesOf(registry, packets)
  {
    hide FrameFromRaw;
    if packets == [] {
      assert packets + [packet] == [packet];
    } else {
      assert (packets + [packet])[1..] == packets[1..] + [packet];
      FramesOfAppend(registry, packets[1..], packet);
    }
  }

  lemma FeedNothing(s: seq<byte>)
    ensures Feed(s, []) == ([], s)
  {
  }

  lemma FeedOne(s: seq<byte>, chunk: seq<byte>)
    ensures Feed(s, [chunk]) == if chunk == [] then ([], s) else Drain(s + chunk)
  {
    if chunk != [] {
      var (packets, rest) := Drain(s + chunk);
      assert [chunk][1..] == [];
      assert packets + [] == packets;
    }
  }

  lemma {:induction false} FeedAppend(s: seq<byte>, chunks: seq<seq<byte>>, chunk: seq<byte>)
    ensures var (packets, rest) := Feed(s, chunks);
            var (more, end) := Feed(rest, [chunk]);
            Feed(s, chunks + [chunk]) == (packets + more, end)
    decreases |chunks|
  {
    hide Drain;
    if chunks == [] {
      assert chunks + [chunk] == [chunk];
      assert [] + Feed(s, [chunk]).0 == Feed(s, [chunk]).0;
    } else {
      assert (chunks + [chunk])[1..] == chunks[1..] + [chunk];
      if chunks[0] == [] {
        FeedAppend(s, chunks[1..], chunk);
      } else {
        var (first, rest) := Drain(s + chunks[0]);
        FeedAppend(rest, chunks[1..], chunk);
        var (middle, last) := Feed(rest, chunks[1..]);
        assert first + (middle + Feed(last, [chunk]).0) == (first + middle) + Feed(last, [chunk]).0;
      }
    }
  }

  // ---------- Reference: one parse of the whole input ----------

  /** Escaped bodies of all complete packets of a byte string, empty ones included. */
  function Bodies(s: seq<byte>): seq<seq<byte>>
    decreases |s|
  {
    if !IsSlip(s) then [] else [Body(s)] + Bodies(GetNextSlip(s).1)
  }

  /** What follows the last complete packet. */
  function Remainder(s: seq<byte>): seq<byte>
    decreases |s|
  {
    if !IsSlip(s) then s else Remainder(GetNextSlip(s).1)
  }

  /** The decoded non-empty packets. */
  function Packets(bodies: seq<seq<byte>>): seq<seq<byte>> {
    if bodies == [] then []
    else (if bodies[0] == [] then [] else [SlipDecode(bodies[0])]) + Packets(bodies[1..])
  }

  // ---------- Conservation on arbitrary bytes ----------

  /** A complete packet at the front does not depend on what arrives later. */
  lemma NextIsStable(s: seq<byte>, t: seq<byte>)
    requires IsSlip(s)
    ensures IsSlip(s + t) && Body(s + t) == Body(s)
    ensures GetNextSlip(s + t) == (GetNextSlip(s).0, GetNextSlip(s).1 + t)
  {
    hide *;
    var body, rest := Body(s), GetNextSlip(s).1;
    assert ([END] + body + [END] + rest) + t == [END] + body + [END] + (rest + t);
    NextOfDelimited(s, body, rest);
    NextOfDelimited(s + t, body, rest + t);
  }

  lemma {:induction false} BodiesSplit(s: seq<byte>, t: seq<byte>)
    ensures Bodies(s + t) == Bodies(s) + Bodies(Remainder(s) + t)
    ensures Remainder(s + t) == Remainder(Remainder(s) + t)
    ensures !IsSlip(Remainder(s))
    decreases |s|
  {
    if IsSlip(s) {
      NextIsStable(s, t);
      BodiesSplit(GetNextSlip(s).1, t);
    }
  }

  lemma {:induction false} DrainConserves(s: seq<byte>, t: seq<byte>)
    ensures Packets(Bodies(s + t)) == Drain(s).0 + Packets(Bodies(Drain(s).1 + t))
    ensures Remainder(s + t) == Remainder(Drain(s).1 + t)
    decreases |s|
  {
    hide IsSlip, GetNextSlip, Body, SlipDecode;
    if IsSlip(s) {
      NextIsStable(s, t);
      var rest := GetNextSlip(s).1;
      BodiesStep(s + t);
      if GetNextSlip(s).0.Some? {
        DrainConserves(rest, t);
        assert Drain(s).0 == [SlipDecode(Body(s))] + Drain(rest).0;
      }
    }
  }

  lemma BodiesStep(s: seq<byte>)
    requires IsSlip(s)
    ensures var packet := if Body(s) == [] then [] else [SlipDecode(Body(s))];
            Packets(Bodies(s)) == packet + Packets(Bodies(GetNextSlip(s).1))
    ensures Body(s) != [] ==> GetNextSlip(s).0 == Some(SlipDecode(Body(s)))
  {
    assert Bodies(s)[1..] == Bodies(GetNextSlip(s).1);
  }

  lemma ConcatStep(s: seq<byte>, chunks: seq<seq<byte>>)
    requires chunks != []
    ensures s + Concat(chunks) == (s + chunks[0]) + Concat(chunks[1..])
    ensures chunks[0] == [] ==> s + chunks[0] == s
  {
    Assoc(s, chunks[0], Concat(chunks[1..]));
  }

  lemma FeedStep(s: seq<byte>, chunks: seq<seq<byte>>)
    requires chunks != []
    ensures chunks[0] == [] ==> Feed(s, chunks) == Feed(s, chunks[1..])
    ensures chunks[0] != [] ==>
              var (packets, rest) := Drain(s + chunks[0]);
              var (more, end) := Feed(rest, chunks[1..]);
              Feed(s, chunks) == (packets + more, end)
  {
    hide Drain;
  }

  /** Reading loses, invents and reorders nothing: whatever the bytes and however they are cut into
      reads, the packets processed so far followed by the non-empty packets still in the buffer are
      the non-empty packets of all input, and the unfinished tail is that of all input. */
  lemma {:induction false} ReaderConservation(s: seq<byte>, chunks: seq<seq<byte>>)
    ensures Packets(Bodies(s + Concat(chunks))) == Feed(s, chunks).0 + Packets(Bodies(Feed(s, chunks).1))
    ensures Remainder(s + Concat(chunks)) == Remainder(Feed(s, chunks).1)
    decreases |chunks|
  {
    if chunks == [] {
      hide Packets, Bodies, Remainder;
      assert s + Concat(chunks) == s;
      assert [] + Packets(Bodies(s)) == Packets(Bodies(s));
    } else {
      hide *;
      ConcatStep(s, chunks);
      FeedStep(s, chunks);
      if chunks[0] == [] {
        ReaderConservation(s, chunks[1..]);
      } else {
        var (packets, rest) := Drain(s + chunks[0]);
        DrainConserves(s + chunks[0], Concat(chunks[1..]));
        ReaderConservation(rest, chunks[1..]);
        var (more, end) := Feed(rest, chunks[1..]);
        Assoc(packets, more, Packets(Bodies(end)));
      }
    }
  }

  // ---------- When the cut into reads matters ----------

  /** No complete packet follows an empty one. */
  predicate OnlyLastEmpty(bodies: seq<seq<byte>>) {
    forall i :: 0 <= i < |bodies| - 1 ==> bodies[i] != []
  }

  lemma OnlyLastEmptyCons(body: seq<byte>, bodies: seq<seq<byte>>)
    ensures OnlyLastEmpty([body] + bodies) <==> OnlyLastEmpty(bodies) && (bodies == [] || body != [])
  {
    var all := [body] + bodies;
    assert forall i :: 0 <= i < |bodies| ==> all[i + 1] == bodies[i];
    if OnlyLastEmpty(bodies) && (bodies == [] || body != []) {
      forall i | 0 <= i < |all| - 1
        ensures all[i] != []
      {
        assert i > 0 ==> all[i] == bodies[i - 1];
      }
    }
    if OnlyLastEmpty(all) {
      assert bodies != [] ==> all[0] != [];
      forall i | 0 <= i < |bodies| - 1
        ensures bodies[i] != []
      {
        assert bodies[i] == all[i + 1];
      }
    }
  }

  lemma {:induction false} DrainsAllIff(s: seq<byte>)
    ensures OnlyLastEmpty(Bodies(s)) ==> Drain(s) == (Packets(Bodies(s)), Remainder(s))
    ensures !OnlyLastEmpty(Bodies(s)) ==> IsSlip(Drain(s).1)
    decreases |s|
  {
    hide IsSlip, GetNextSlip, Body, SlipDecode, OnlyLastEmpty;
    OnlyLastEmptyNone();
    if IsSlip(s) {
      var rest := GetNextSlip(s).1;
      DrainsAllIff(rest);
      OnlyLastEmptyCons(Body(s), Bodies(rest));
      BodiesStep(s);
    }
  }

  lemma OnlyLastEmptyNone()
    ensures OnlyLastEmpty([])
  {
  }

  lemma {:induction false} PacketsAppend(a: seq<seq<byte>>, b: seq<seq<byte>>)
    ensures Packets(a + b) == Packets(a) + Packets(b)
  {
    if a == [] {
      assert a + b == b;
    } else {
      assert (a + b)[1..] == a[1..] + b;
      PacketsAppend(a[1..], b);
    }
  }

  lemma OnlyLastEmptySplit(a: seq<seq<byte>>, b: seq<seq<byte>>)
    requires OnlyLastEmpty(a + b)
    ensures OnlyLastEmpty(a) && OnlyLastEmpty(b)
  {
    forall i | 0 <= i < |a| - 1
      ensures a[i] != []
    {
      assert a[i] == (a + b)[i];
    }
    forall i | 0 <= i < |b| - 1
      ensures b[i] != []
    {
      assert b[i] == (a + b)[|a| + i];
    }
  }

  lemma NothingDue(s: seq<byte>)
    requires !IsSlip(s)
    ensures Packets(Bodies(s)) == [] && Remainder(s) == s
  {
  }

  lemma {:induction false} FeedTakesAll(s: seq<byte>, chunks: seq<seq<byte>>)
    requires !IsSlip(s)
    requires OnlyLastEmpty(Bodies(s + Concat(chunks)))
    ensures Feed(s, chunks) == (Packets(Bodies(s + Concat(chunks))), Remainder(s + Concat(chunks)))
    decreases |chunks|
  {
    if chunks == [] {
      hide IsSlip, Packets, Bodies, Remainder;
      assert s + Concat(chunks) == s;
      NothingDue(s);
    } else {
      hide *;
      ConcatStep(s, chunks);
      FeedStep(s, chunks);
      if chunks[0] == [] {
        FeedTakesAll(s, chunks[1..]);
      } else {
        var now, t := s + chunks[0], Concat(chunks[1..]);
        BodiesSplit(now, t);
        OnlyLastEmptySplit(Bodies(now), Bodies(Remainder(now) + t));
        DrainsAllIff(now);
        FeedTakesAll(Remainder(now), chunks[1..]);
        PacketsAppend(Bodies(now), Bodies(Remainder(now) + t));
      }
    }
  }

  /** The exact condition under which fragmentation is invisible: every way of cutting the input
      into reads yields all packets and the same leftover, if and only if no complete packet follows
      an empty packet. */
  lemma FragmentationInvisibleIff(s: seq<byte>)
    ensures (forall chunks :: Concat(chunks) == s ==> Feed([], chunks) == (Packets(Bodies(s)), Remainder(s)))
            <==> OnlyLastEmpty(Bodies(s))
  {
    if OnlyLastEmpty(Bodies(s)) {
      forall chunks | Concat(chunks) == s
        ensures Feed([], chunks) == (Packets(Bodies(s)), Remainder(s))
      {
        assert [] + Concat(chunks) == s;
        FeedTakesAll([], chunks);
      }
    } else {
      OneReadLeavesPackets(s);
      assert Concat([s]) == s;
    }
  }

  /** One single read of everything leaves complete packets in the buffer if one follows an empty. */
  lemma OneReadLeavesPackets(s: seq<byte>)
    ensures !OnlyLastEmpty(Bodies(s)) ==> Feed([], [s]).1 != Remainder(s)
  {
    hide Bodies, OnlyLastEmpty, Remainder, Drain, Feed, IsSlip;
    if s != [] {
      FeedOne([], s);
      assert [] + s == s;
      DrainsAllIff(s);
      BodiesSplit(s, []);
    } else {
      NoBodies();
    }
  }

  lemma NoBodies()
    ensures OnlyLastEmpty(Bodies([]))
  {
  }

  /** Drain of a stream of one non-empty or empty packet. */
  lemma DrainOne(s: seq<byte>, body: seq<byte>, rest: seq<byte>)
    requires END !in body && s == [END] + body + [END] + rest
    ensures Drain(s) == if body == [] then ([], rest) else ([SlipDecode(body)] + Drain(rest).0, Drain(rest).1)
  {
    NextOfDelimited(s, body, rest);
    hide IsSlip, GetNextSlip, SlipDecode;
  }

  /** The stream C0 C0 C0 01 C0 read at once: the packet 01 stays in the buffer until more bytes
      arrive, because the empty packet before it ended the drain. */
  lemma ReadAtOnceStalls(stream: seq<byte>)
    requires stream == [END, END, END, 1, END]
    ensures Feed([], [stream]) == ([], [END, 1, END])
  {
    var rest: seq<byte> := [END, 1, END];
    DrainOne(stream, [], rest);
    hide *;
    FeedOne([], stream);
    assert [] + stream == stream;
  }

  lemma TwoDrains(first: seq<byte>, second: seq<byte>)
    requires first == [END, END] && second == [END, 1, END]
    ensures Drain(first) == ([], []) && Drain(second) == ([[1]], [])
  {
    var one: seq<byte> := [1];
    DrainOne(first, [], []);
    DrainOne(second, one, []);
    OneDecodes();
    NothingDrains();
    hide *;
    assert [one] + [] == [one];
  }

  lemma OneDecodes()
    ensures SlipDecode([1]) == [1]
  {
    DecodeIsUnescape([1]);
    hide SlipDecode;
  }

  lemma NothingDrains()
    ensures Drain([]) == ([], [])
  {
  }

  /** The same bytes in two reads: the packet is delivered. */
  lemma ReadInTwoDelivers(first: seq<byte>, second: seq<byte>)
    requires first == [END, END] && second == [END, 1, END]
    ensures Feed([], [first, second]) == ([[1]], [])
  {
    hide *;
    var one: seq<byte> := [1];
    TwoDrains(first, second);
    FeedOne([], first);
    FeedOne([], second);
    assert [] + first == first && [] + second == second;
    FeedAppend([], [first], second);
    assert [first] + [second] == [first, second];
    assert [one] + [] == [one] && [] + [one] == [one];
  }

  /** A buffer that starts with anything but END is never read again: nothing is ever dispatched and
      the buffer only grows. */
  lemma {:induction false} NeverResynchronises(s: seq<byte>, chunks: seq<seq<byte>>)
    requires s != [] && s[0] != END
    ensures Feed(s, chunks) == ([], s + Concat(chunks))
    decreases |chunks|
  {
    if chunks == [] {
      assert s + Concat(chunks) == s;
    } else {
      assert s + Concat(chunks) == (s + chunks[0]) + Concat(chunks[1..]);
      NeverResynchronises(s + chunks[0], chunks[1..]);
      if chunks[0] == [] {
        assert s + chunks[0] == s;
      } else {
        assert Drain(s + chunks[0]) == ([], s + chunks[0]);
        assert [] + Feed(s + chunks[0], chunks[1..]).0 == [];
      }
    }
  }

  // ---------- End to end ----------

  /** What a peer puts on the wire: a registered frame, or an END-delimited body that no registered
      decoder accepts. */
  datatype Item<+F> =
    | Sent(command: Command, payload: seq<byte>, frame: F)
    | Noise(body: seq<byte>)

  predicate Acceptable<F(==)>(registry: Registry<F>, item: Item<F>) {
    match item
    case Sent(command, payload, frame) =>
      |payload| <= MAX_PAYLOAD && command in registry && registry[command](payload) == Some(frame)
    case Noise(body) =>
      body != [] && END !in body && FrameOf(registry, SlipDecode(body)) == None
  }

  function ItemBytes<F>(item: Item<F>): seq<byte> {
    match item
    case Sent(command, payload, _) => SlipPack(FrameBytes(command, payload))
    case Noise(body) => [END] + body + [END]
  }

  function Wire<F>(items: seq<Item<F>>): seq<byte> {
    if items == [] then [] else ItemBytes(items[0]) + Wire(items[1..])
  }

  function SentFrames<F>(items: seq<Item<F>>): seq<F> {
    if items == [] then []
    else (if items[0].Sent? then [items[0].frame] else []) + SentFrames(items[1..])
  }

  lemma {:induction false} WireParses<F>(registry: Registry<F>, items: seq<Item<F>>, tail: seq<byte>)
    requires forall i :: 0 <= i < |items| ==> Acceptable(registry, items[i])
    requires !IsSlip(tail)
    ensures var s := Wire(items) + tail;
            [] !in Bodies(s)
            && FramesOf(registry, Packets(Bodies(s))) == SentFrames(items)
            && Remainder(s) == tail
  {
    hide IsSlip, GetNextSlip, Body, SlipDecode, ItemBytes, FrameOf, Acceptable, Packets, FramesOf;
    if items == [] {
      assert Wire(items) + tail == tail;
      NoPackets(registry);
    } else {
      hide Bodies, Remainder;
      var rest := Wire(items[1..]) + tail;
      WireParses(registry, items[1..], tail);
      assert Wire(items) + tail == ItemBytes(items[0]) + rest;
      WireStep(registry, items[0], rest);
    }
  }

  /** One wire item in front of a stream adds its frame, if it is one that was sent, and nothing else. */
  lemma WireStep<F>(registry: Registry<F>, item: Item<F>, rest: seq<byte>)
    requires Acceptable(registry, item)
    requires [] !in Bodies(rest)
    ensures var s := ItemBytes(item) + rest;
            [] !in Bodies(s)
            && FramesOf(registry, Packets(Bodies(s)))
               == (if item.Sent? then [item.frame] else []) + FramesOf(registry, Packets(Bodies(rest)))
            && Remainder(s) == Remainder(rest)
  {
    var s := ItemBytes(item) + rest;
    var body, packet := ItemPacket(registry, item, rest);
    BodiesStep(s);
    hide IsSlip, GetNextSlip, Body, SlipDecode, ItemBytes, FrameOf, Acceptable, FramesOf;
    assert Packets(Bodies(s)) == [packet] + Packets(Bodies(rest));
    FramesOfCons(registry, packet, Packets(Bodies(rest)));
  }

  lemma NoPackets<F>(registry: Registry<F>)
    ensures FramesOf(registry, Packets([])) == []
  {
  }

  lemma FramesOfCons<F>(registry: Registry<F>, packet: seq<byte>, packets: seq<seq<byte>>)
    ensures FramesOf(registry, [packet] + packets)
            == (match FrameOf(registry, packet) case Some(frame) => [frame] case None => [])
               + FramesOf(registry, packets)
  {
    hide FrameOf;
    assert ([packet] + packets)[1..] == packets;
  }

  /** The packet one wire item becomes. */
  lemma ItemPacket<F>(registry: Registry<F>, item: Item<F>, rest: seq<byte>)
    returns (body: seq<byte>, packet: seq<byte>)
    requires Acceptable(registry, item)
    ensures var s := ItemBytes(item) + rest;
            IsSlip(s) && Body(s) == body != [] && SlipDecode(body) == packet
            && GetNextSlip(s) == (Some(packet), rest)
    ensures FrameOf(registry, packet) == if item.Sent? then Some(item.frame) else None
  {
    match item
    case Sent(command, payload, frame) =>
      packet := FrameBytes(command, payload);
      body := SlipEncode(packet);
      SlipRoundTrip(packet);
      ExtractInvertsBuildIff(command, payload);
      NextOfDelimited(ItemBytes(item) + rest, body, rest);
    case Noise(b) =>
      body, packet := b, SlipDecode(b);
      NextOfDelimited(ItemBytes(item) + rest, body, rest);
  }

  /** Any sequence of registered frames, interleaved with any non-empty garbage packets, cut into
      any reads at all and received up to any incomplete packet: exactly those frames are
      dispatched, in order, and the buffer holds just the incomplete packet. */
  lemma EndToEnd<F>(registry: Registry<F>, items: seq<Item<F>>, tail: seq<byte>, chunks: seq<seq<byte>>)
    requires forall i :: 0 <= i < |items| ==> Acceptable(registry, items[i])
    requires !IsSlip(tail)
    requires Concat(chunks) == Wire(items) + tail
    ensures FramesOf(registry, Feed([], chunks).0) == SentFrames(items)
    ensures Feed([], chunks).1 == tail
  {
    WireParses(registry, items, tail);
    assert [] + Concat(chunks) == Concat(chunks);
    FeedTakesAll([], chunks);
  }

  /** The same, for the reader itself. */
  method Deliver<F>(registry: Registry<F>, ghost items: seq<Item<F>>, ghost tail: seq<byte>, chunks: seq<seq<byte>>)
    returns (frames: seq<F>, buffer: seq<byte>)
    requires forall i :: 0 <= i < |items| ==> Acceptable(registry, items[i])
    requires !IsSlip(tail)
    requires Concat(chunks) == Wire(items) + tail
    ensures frames == SentFrames(items) && buffer == tail
  {
    var reader := new Reader(registry);
    reader.ReadAll(chunks);
    assert reader.packets == Feed([], chunks).0;
    EndToEnd(registry, items, tail, chunks);
    frames, buffer := reader.dispatched, reader.stream;
  }
}
