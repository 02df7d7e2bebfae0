/** The whole inbound tower in one statement: frames are marshalled, checksummed, SLIP-packed, cut
    into reads, tokenized, decoded, dispatched, and picked up by the calls waiting for them. */
module EndToEnd {
  import opened Bytes
  import opened Calls
  import opened Messages
  import opened ReadLoop
  import opened Slip
  import FrameCodec
  import Status = StatusNotification

  /** What the gateway sends: a frame, its parameter map written in some order, or garbage. */
  datatype Emission = Framed(frame: Frame, order: seq<byte>) | Garbage(body: seq<byte>)

  ghost predicate Legal(e: Emission, others: Others) {
    match e
    case Framed(f, order) =>
      && Representable(f, others)
      && (f.StatusRequestNtf? ==> Status.IsIteration(order, f.notification.parameterData))
    case Garbage(body) =>
      body != [] && END !in body && FrameOf(FrameRegistry(others), SlipDecode(body)) == None
  }

  /** MarshalFrame and SlipPack for frames; garbage between two END markers. */
  ghost function Sent(e: Emission, others: Others): seq<byte>
    requires Legal(e, others)
  {
    match e
    case Framed(f, order) =>
      FrameRoundTrip(f, order, others);
      SlipPack(FrameCodec.FrameBytes(CommandOf(f), Marshal(f, order).value))
    case Garbage(body) => [END] + body + [END]
  }

  ghost function Stream(emissions: seq<Emission>, others: Others): seq<byte>
    requires forall i :: 0 <= i < |emissions| ==> Legal(emissions[i], others)
  {
    if emissions == [] then [] else Sent(emissions[0], others) + Stream(emissions[1..], others)
  }

  function Frames(emissions: seq<Emission>): seq<Frame> {
    if emissions == [] then []
    else (if emissions[0].Framed? then [emissions[0].frame] else []) + Frames(emissions[1..])
  }

  /** The emissions as items of the generic reader theorem. */
  lemma {:induction false} AsItems(emissions: seq<Emission>, others: Others) returns (items: seq<Item<Frame>>)
    requires forall i :: 0 <= i < |emissions| ==> Legal(emissions[i], others)
    ensures |items| == |emissions|
    ensures forall i :: 0 <= i < |items| ==> Acceptable(FrameRegistry(others), items[i])
    ensures Wire(items) == Stream(emissions, others) && SentFrames(items) == Frames(emissions)
  {
    hide FrameRegistry, Acceptable;
    items := [];
    if emissions != [] {
      var rest := AsItems(emissions[1..], others);
      var item := AsItem(emissions[0], others);
      items := [item] + rest;
      assert items[1..] == rest;
    }
  }

  lemma AsItem(e: Emission, others: Others) returns (item: Item<Frame>)
    requires Legal(e, others)
    ensures Acceptable(FrameRegistry(others), item) && ItemBytes(item) == Sent(e, others)
    ensures item.Sent? == e.Framed? && (e.Framed? ==> item.frame == e.frame)
  {
    match e
    case Framed(f, order) =>
      FrameRoundTrip(f, order, others);
      item := Item.Sent(CommandOf(f), Marshal(f, order).value, f);
    case Garbage(body) => item := Noise(body);
  }

  /** However the gateway interleaves representable frames with garbage, in whatever order it writes
      each parameter map, and however the network cuts the stream: the reader dispatches exactly the
      frames sent, in order, and keeps exactly the unfinished tail. */
  lemma FramesArrive(emissions: seq<Emission>, others: Others, tail: seq<byte>, chunks: seq<seq<byte>>)
    requires forall i :: 0 <= i < |emissions| ==> Legal(emissions[i], others)
    requires !IsSlip(tail)
    requires Concat(chunks) == Stream(emissions, others) + tail
    ensures FramesOf(FrameRegistry(others), Feed([], chunks).0) == Frames(emissions)
    ensures Feed([], chunks).1 == tail
  {
    hide *;
    var items := AsItems(emissions, others);
    ReadLoop.EndToEnd(FrameRegistry(others), items, tail, chunks);
  }

  /** Two calls with different session ids on one connection: whatever the interleaving of their
      replies, the garbage in between and the fragmentation, each returns from the bytes what it
      would return from its own replies alone. */
  lemma CallsOverOneWire(x: Call, y: Call, picks: seq<bool>, a: seq<Frame>, b: seq<Frame>,
                         emissions: seq<Emission>, others: Others, tail: seq<byte>, chunks: seq<seq<byte>>)
    requires !x.SetLimitation? && !y.SetLimitation?
    requires forall i :: 0 <= i < |a| ==> SessionOf(a[i]) != Some(y.sid)
    requires forall i :: 0 <= i < |b| ==> SessionOf(b[i]) != Some(x.sid)
    requires forall i :: 0 <= i < |emissions| ==> Legal(emissions[i], others)
    requires Interleaves(picks, a, b, Frames(emissions))
    requires !IsSlip(tail) && Concat(chunks) == Stream(emissions, others) + tail
    ensures var dispatched := FramesOf(FrameRegistry(others), Feed([], chunks).0);
            Outcome(x, dispatched) == Outcome(x, a) && Outcome(y, dispatched) == Outcome(y, b)
  {
    FramesArrive(emissions, others, tail, chunks);
    InterleavedCalls(x, y, picks, a, b, Frames(emissions));
  }

  /** One connection as run: the reader consumes the chunks, then the call looks at what was
      dispatched while it waited. */
  method StatusRequestOverWire(sid: uint16, others: Others, chunks: seq<seq<byte>>,
                               ghost emissions: seq<Emission>, ghost tail: seq<byte>)
    returns (r: CallResult)
    requires forall i :: 0 <= i < |emissions| ==> Legal(emissions[i], others)
    requires !IsSlip(tail) && Concat(chunks) == Stream(emissions, others) + tail
    ensures r == Outcome(StatusRequest(sid), Own(Frames(emissions), sid))
  {
    var reader := new Reader(FrameRegistry(others));
    reader.ReadAll(chunks);
    assert reader.packets == Feed([], chunks).0;
    FramesArrive(emissions, others, tail, chunks);
    r := DoStatusRequest(sid, reader.dispatched);
    NonInterference(StatusRequest(sid), Frames(emissions));
  }
}
