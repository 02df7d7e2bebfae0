/** Loading the scene collection (app/klf200/scenes.go Load): the gateway announces a count and then
    sends the list cut into any number of notifications. */
module Scenes {
  import opened Bytes
  import opened Collection
  import opened Messages
  import opened SceneList

  /** Handler progress: the announced count (-1 before the confirmation), the entries so far, and
      whether the last frame completed the call. */
  datatype Progress = Progress(expected: int, collected: seq<SceneEntry>, done: bool)

  const Start := Progress(-1, [], false)

  function LoadStep(p: Progress, f: Frame): Progress {
    match f
    case SceneListCfm(count) => p.(expected := count, done := count == 0)
    case SceneListNtf(list) => p.(collected := p.collected + list.scenes, done := list.remainingScenes == 0)
    case _ => p
  }

  function LoadRun(p: Progress, frames: seq<Frame>): Progress
    decreases |frames|
  {
    if p.done || frames == [] then p else LoadRun(LoadStep(p, frames[0]), frames[1..])
  }

  function AsEntries(scenes: seq<SceneEntry>): (r: seq<Entry<seq<byte>>>)
    ensures |r| == |scenes|
  {
    seq(|scenes|, i requires 0 <= i < |scenes| => Entry(scenes[i].number, scenes[i].name))
  }

  datatype LoadResult = Nil | Mismatch | CallFailed

  method Load(scenes: Items<seq<byte>>, frames: seq<Frame>) returns (r: LoadResult)
    modifies scenes
    ensures var p := LoadRun(Start, frames);
            if !p.done then r == CallFailed && scenes.items == old(scenes.items)
            else scenes.items == Build(AsEntries(p.collected))
                 && r == if p.expected >= 0 && |p.collected| != p.expected then Mismatch else Nil
  {
    var expectedCount: int, collected, done := -1, [], false;
    var i := 0;
    while i < |frames| && !done
      invariant 0 <= i <= |frames|
      invariant LoadRun(Start, frames) == LoadRun(Progress(expectedCount, collected, done), frames[i..])
    {
      match frames[i] {
        case SceneListCfm(count) =>
          expectedCount := count;
          done := expectedCount == 0;
        case SceneListNtf(list) =>
          collected := collected + list.scenes;
          done := list.remainingScenes == 0;
        case _ =>
      }
      assert frames[i..][1..] == frames[i + 1..];
      i := i + 1;
    }
    if !done {
      return CallFailed;
    }
    r := if expectedCount >= 0 && |collected| != expectedCount then Mismatch else Nil;
    scenes.Reload(AsEntries(collected));
  }

  // ---------- Any cut of a list ----------

  predicate SceneFrame(f: Frame) { f.SceneListCfm? || f.SceneListNtf? }

  function SceneFrames(frames: seq<Frame>): seq<Frame> {
    if frames == [] then []
    else (if SceneFrame(frames[0]) then [frames[0]] else []) + SceneFrames(frames[1..])
  }

  function Notifications(parts: seq<SceneListNotification>): seq<Frame> {
    if parts == [] then [] else [SceneListNtf(parts[0])] + Notifications(parts[1..])
  }

  function AllScenes(parts: seq<SceneListNotification>): seq<SceneEntry> {
    if parts == [] then [] else parts[0].scenes + AllScenes(parts[1..])
  }

  /** A list cut into notifications: only the last one says that nothing remains. */
  predicate IsCut(parts: seq<SceneListNotification>) {
    && parts != []
    && (forall i :: 0 <= i < |parts| ==> (parts[i].remainingScenes == 0 <==> i == |parts| - 1))
  }

  lemma {:induction false} IgnoresOtherFrames(p: Progress, frames: seq<Frame>)
    ensures LoadRun(p, frames) == LoadRun(p, SceneFrames(frames))
    decreases |frames|
  {
    if frames != [] && !p.done {
      var rest := SceneFrames(frames[1..]);
      IgnoresOtherFrames(LoadStep(p, frames[0]), frames[1..]);
      if SceneFrame(frames[0]) {
        assert ([frames[0]] + rest)[1..] == rest;
      } else {
        assert [] + rest == rest;
      }
    }
  }

  lemma {:induction false} RunParts(p: Progress, parts: seq<SceneListNotification>, rest: seq<Frame>)
    requires !p.done && IsCut(parts)
    ensures LoadRun(p, Notifications(parts) + rest) == Progress(p.expected, p.collected + AllScenes(parts), true)
    decreases |parts|
  {
    var frames := Notifications(parts) + rest;
    assert frames[1..] == Notifications(parts[1..]) + rest;
    var next := LoadStep(p, frames[0]);
    if |parts| == 1 {
      assert AllScenes(parts) == parts[0].scenes + AllScenes(parts[1..]) == parts[0].scenes;
      assert LoadRun(next, frames[1..]) == next;
    } else {
      RunParts(next, parts[1..], rest);
      Assoc(p.collected, parts[0].scenes, AllScenes(parts[1..]));
    }
  }

  /** After a non-zero count, however the list is cut and whatever other frames come in between, Load
      collects the whole list; so it builds the same collection, and reports nil exactly when the
      number of entries received is the announced one. */
  lemma AnyCutLoadsTheList(count: byte, parts: seq<SceneListNotification>, frames: seq<Frame>)
    requires count != 0 && IsCut(parts)
    requires SceneFrames(frames) == [SceneListCfm(count)] + Notifications(parts)
    ensures LoadRun(Start, frames) == Progress(count, AllScenes(parts), true)
    ensures IsDigest(Build(AsEntries(AllScenes(parts))), AsEntries(AllScenes(parts)))
  {
    IgnoresOtherFrames(Start, frames);
    var own := SceneFrames(frames);
    assert own[1..] == Notifications(parts) == Notifications(parts) + [];
    RunParts(LoadStep(Start, own[0]), parts, []);
    assert [] + AllScenes(parts) == AllScenes(parts);
    BuildIsDigest(AsEntries(AllScenes(parts)));
  }

  // ---------- Any stream at all ----------

  /** The frames that end the call: a count of zero, and a notification after which nothing remains. */
  predicate EndsLoad(f: Frame) {
    (f.SceneListCfm? && f.countScenes == 0) || (f.SceneListNtf? && f.list.remainingScenes == 0)
  }

  /** The scenes of all notifications of a stream. */
  function ScenesIn(frames: seq<Frame>): seq<SceneEntry> {
    if frames == [] then []
    else (if frames[0].SceneListNtf? then frames[0].list.scenes else []) + ScenesIn(frames[1..])
  }

  /** The last count announced in a stream, or what was known before. */
  function LastCount(frames: seq<Frame>, before: int): int {
    if frames == [] then before
    else LastCount(frames[1..], if frames[0].SceneListCfm? then frames[0].countScenes as int else before)
  }

  /** As long as no frame ends the call, it collects. */
  lemma {:induction false} RunCollects(p: Progress, frames: seq<Frame>)
    requires !p.done && forall i :: 0 <= i < |frames| ==> !EndsLoad(frames[i])
    ensures LoadRun(p, frames) == Progress(LastCount(frames, p.expected), p.collected + ScenesIn(frames), false)
    decreases |frames|
  {
    if frames == [] {
      assert p.collected + [] == p.collected;
    } else {
      assert !EndsLoad(frames[0]);
      var next := LoadStep(p, frames[0]);
      RunCollects(next, frames[1..]);
      Assoc(p.collected, if frames[0].SceneListNtf? then frames[0].list.scenes else [], ScenesIn(frames[1..]));
      assert p.collected + [] == p.collected;
    }
  }

  /** The first frame that ends the call ends it, with what was collected up to it. */
  lemma RunEnds(frames: seq<Frame>, t: nat)
    requires t < |frames| && EndsLoad(frames[t]) && forall i :: 0 <= i < t ==> !EndsLoad(frames[i])
    ensures LoadRun(Start, frames) == Progress(LastCount(frames[..t + 1], -1), ScenesIn(frames[..t + 1]), true)
  {
    hide ScenesIn, LastCount;
    RunCollects(Start, frames[..t]);
    RunSplit(Start, frames[..t], frames[t..]);
    assert frames == frames[..t] + frames[t..];
    assert frames[..t + 1] == frames[..t] + [frames[t]];
    CountAppend(frames[..t], frames[t], -1);
    ScenesAppend(frames[..t], frames[t]);
    assert [] + ScenesIn(frames[..t]) == ScenesIn(frames[..t]);
    assert ScenesIn(frames[..t]) + [] == ScenesIn(frames[..t]);
    RunLast(LoadRun(Start, frames[..t]), frames[t..]);
  }

  lemma RunLast(p: Progress, frames: seq<Frame>)
    requires !p.done && frames != [] && EndsLoad(frames[0])
    ensures LoadRun(p, frames) == LoadStep(p, frames[0])
  {
  }

  /** Whatever is received: the call completes exactly if some frame ends it, and then with the scenes
      and the last count up to the first such frame; nothing after it matters. In particular a count of
      zero completes it with nothing. */
  lemma LoadEndsIff(frames: seq<Frame>)
    ensures LoadRun(Start, frames).done <==> exists i :: 0 <= i < |frames| && EndsLoad(frames[i])
    ensures forall t :: 0 <= t < |frames| && EndsLoad(frames[t])
                        && (forall i :: 0 <= i < t ==> !EndsLoad(frames[i])) ==>
              LoadRun(Start, frames) == Progress(LastCount(frames[..t + 1], -1), ScenesIn(frames[..t + 1]), true)
  {
    hide LoadRun, EndsLoad, ScenesIn, LastCount;
    forall t | 0 <= t < |frames| && EndsLoad(frames[t]) && forall i :: 0 <= i < t ==> !EndsLoad(frames[i])
      ensures LoadRun(Start, frames) == Progress(LastCount(frames[..t + 1], -1), ScenesIn(frames[..t + 1]), true)
    {
      RunEnds(frames, t);
    }
    if exists i :: 0 <= i < |frames| && EndsLoad(frames[i]) {
      var t := FirstEnding(frames);
      RunEnds(frames, t);
    } else {
      RunCollects(Start, frames);
    }
  }

  lemma FirstEnding(frames: seq<Frame>) returns (t: nat)
    requires exists i :: 0 <= i < |frames| && EndsLoad(frames[i])
    ensures t < |frames| && EndsLoad(frames[t]) && forall i :: 0 <= i < t ==> !EndsLoad(frames[i])
  {
    t := 0;
    while !EndsLoad(frames[t])
      invariant t < |frames| && forall i :: 0 <= i < t ==> !EndsLoad(frames[i])
      decreases |frames| - t
    {
      t := t + 1;
    }
  }

  lemma {:induction false} RunSplit(p: Progress, a: seq<Frame>, b: seq<Frame>)
    ensures LoadRun(p, a + b) == LoadRun(LoadRun(p, a), b)
    decreases |a|
  {
    if a == [] {
      assert a + b == b;
    } else if !p.done {
      assert (a + b)[1..] == a[1..] + b;
      RunSplit(LoadStep(p, a[0]), a[1..], b);
    }
  }

  lemma {:induction false} CountAppend(frames: seq<Frame>, f: Frame, before: int)
    ensures LastCount(frames + [f], before)
            == if f.SceneListCfm? then f.countScenes as int else LastCount(frames, before)
    decreases |frames|
  {
    if frames == [] {
      assert frames + [f] == [f];
    } else {
      assert (frames + [f])[1..] == frames[1..] + [f];
      CountAppend(frames[1..], f, if frames[0].SceneListCfm? then frames[0].countScenes as int else before);
    }
  }

  lemma {:induction false} ScenesAppend(frames: seq<Frame>, f: Frame)
    ensures ScenesIn(frames + [f]) == ScenesIn(frames) + if f.SceneListNtf? then f.list.scenes else []
  {
    var scenes := if f.SceneListNtf? then f.list.scenes else [];
    if frames == [] {
      assert frames + [f] == [f];
      assert ScenesIn([f][1..]) == [];
      assert scenes + [] == scenes && [] + scenes == scenes;
    } else {
      assert (frames + [f])[1..] == frames[1..] + [f];
      ScenesAppend(frames[1..], f);
    }
  }

  /** Two deliveries of the same list, cut differently, leave the same collection behind. */
  method LoadTwice(a: Items<seq<byte>>, b: Items<seq<byte>>, count: byte,
                   ghost pa: seq<SceneListNotification>, fa: seq<Frame>,
                   ghost pb: seq<SceneListNotification>, fb: seq<Frame>)
    returns (ra: LoadResult, rb: LoadResult)
    requires a != b && count != 0 && IsCut(pa) && IsCut(pb) && AllScenes(pa) == AllScenes(pb)
    requires SceneFrames(fa) == [SceneListCfm(count)] + Notifications(pa)
    requires SceneFrames(fb) == [SceneListCfm(count)] + Notifications(pb)
    modifies a, b
    ensures a.items == b.items && UniqueIds(a.items) && ra == rb
    ensures ra == Nil <==> |AllScenes(pa)| == count as int
  {
    AnyCutLoadsTheList(count, pa, fa);
    AnyCutLoadsTheList(count, pb, fb);
    ra := Load(a, fa);
    rb := Load(b, fb);
  }
}
