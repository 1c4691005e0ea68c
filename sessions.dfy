/**
 Sequences of events on one movie: the host's ticks and control calls, each
 at its wall time, interleaved with the decoder's reader thread making frames
 ready between two calls. A seek repositions the decoder, which from then on
 delivers frames from the new position: what was ready before it is flushed,
 the frames given with the seek are ready instead, and the video clock is the
 one given with it. A decoder that did not initialize has no reader thread.
 These two environment events are assumptions about the decoder, not
 behaviour of `MovieGl`. Properties that hold over any number of events are
 stated here.
 */
module Sessions {
  import opened Wrappers
  import Clock
  import opened Decoding
  import opened VideoPump
  import P = Playback

  datatype Command =
    | Tick(now: real)
    | Play(now: real)
    | Stop(now: real)
    | Pause(now: real)
    | Resume(now: real)
    | Seek(seconds: real, now: real, clock: real, video: seq<VideoFrame>, audio: seq<AudioFrame>)
    | SetLoop(on: bool)
    | Arrive(video: seq<VideoFrame>, audio: seq<AudioFrame>)

  /** The reader thread makes `video` and `audio` ready after what is ready. */
  function Deliver(m: P.Movie, video: seq<VideoFrame>, audio: seq<AudioFrame>): P.Movie {
    if !m.decoder.initialized then m
    else m.(decoder := m.decoder.(video := m.decoder.video + video, audio := m.decoder.audio + audio))
  }

  /** After a seek, the video clock and the frames ready are those of the new
      position. */
  function Reposition(m: P.Movie, clock: real, video: seq<VideoFrame>, audio: seq<AudioFrame>): P.Movie {
    if !m.decoder.initialized then m
    else m.(decoder := m.decoder.(videoClock := clock, video := video, audio := audio))
  }

  function Step(m: P.Movie, c: Command): P.Movie {
    match c
    case Tick(now) => P.Update(m, now)
    case Play(now) => P.Play(m, now)
    case Stop(now) => P.Stop(m, now)
    case Pause(now) => P.Pause(m, now)
    case Resume(now) => P.Resume(m, now)
    case Seek(seconds, now, clock, video, audio) => Reposition(P.SeekToTime(m, seconds, now), clock, video, audio)
    case SetLoop(on) => P.SetLoop(m, on)
    case Arrive(video, audio) => Deliver(m, video, audio)
  }

  function Run(m: P.Movie, cs: seq<Command>): P.Movie
    decreases |cs|
  {
    if cs == [] then m else Run(Step(m, cs[0]), cs[1..])
  }

  predicate IsSuffix<T(==)>(a: seq<T>, b: seq<T>) {
    |a| <= |b| && a == b[|b| - |a|..]
  }

  /** The video frames that can be ready after `c`, before a tick takes any:
      those the seek brings, or those ready before plus those that arrive. */
  function Offered(m: P.Movie, c: Command): seq<VideoFrame> {
    if !m.decoder.initialized then m.decoder.video
    else if c.Seek? then c.video
    else if c.Arrive? then m.decoder.video + c.video
    else m.decoder.video
  }

  /** Frames become ready only by arriving or by a seek: after one event what
      is ready is what was offered, less the frames a tick decoded. No event
      changes the decoder's initialization or frame rate. */
  lemma StepVideo(m: P.Movie, c: Command)
    ensures IsSuffix(Step(m, c).decoder.video, Offered(m, c))
    ensures Step(m, c).decoder.initialized == m.decoder.initialized
    ensures Step(m, c).decoder.fps == m.decoder.fps
  {
    if c.Tick? && m.decoder.initialized {
      P.UpdateVideo(m, c.now);
    }
  }

  /** One event leaves the presented texture alone, except that a seek drops
      it and a tick may replace it with a frame the decoder had ready. */
  lemma StepTexture(m: P.Movie, c: Command)
    ensures var t := Step(m, c).texture;
      || t == m.texture
      || (c.Seek? && t.None?)
      || (c.Tick? && t.Some? && t.value.frame in m.decoder.video)
  {
    if c.Tick? && m.decoder.initialized {
      P.UpdateVideo(m, c.now);
      var k := P.Decoded(m, Step(m, c));
      if k > 0 {
        assert m.decoder.video[k - 1] in m.decoder.video;
      }
    }
  }

  lemma SuffixMember<T>(a: seq<T>, b: seq<T>, x: T)
    requires IsSuffix(a, b) && x in a
    ensures x in b
  {
    var j :| 0 <= j < |a| && a[j] == x;
    assert b[|b| - |a| + j] == x;
  }

  /** Every event preserves the invariant. */
  lemma StepValid(m: P.Movie, c: Command)
    requires P.Valid(m)
    ensures P.Valid(Step(m, c))
  {
  }

  /** A movie whose decoder did not initialize ignores every sequence of events. */
  lemma {:induction false} RunUninitialized(m: P.Movie, cs: seq<Command>)
    requires !m.decoder.initialized
    ensures Run(m, cs) == m
    decreases |cs|
  {
    if cs != [] {
      assert Step(m, cs[0]) == m;
      RunUninitialized(m, cs[1..]);
    }
  }

  /** The invariant holds after any sequence of events. */
  lemma {:induction false} RunValid(m: P.Movie, cs: seq<Command>)
    requires P.Valid(m)
    ensures P.Valid(Run(m, cs))
    decreases |cs|
  {
    if cs != [] {
      StepValid(m, cs[0]);
      RunValid(Step(m, cs[0]), cs[1..]);
    }
  }

  /** Running a prefix one event longer is running the first event, then the
      rest of the prefix. */
  lemma RunPrefix(m: P.Movie, cs: seq<Command>, j: nat)
    requires j < |cs|
    ensures Run(m, cs[..j + 1]) == Run(Step(m, cs[0]), cs[1..][..j])
  {
    assert cs[..j + 1][1..] == cs[1..][..j];
  }

  /** No seek, and no video frame arrives. */
  predicate Starved(cs: seq<Command>) {
    forall i :: 0 <= i < |cs| ==> !cs[i].Seek? && (cs[i].Arrive? ==> cs[i].video == [])
  }

  /** Last-frame hold: while the decoder has no video frame ready and none
      arrives, no sequence of events without a seek changes the presented
      texture. */
  lemma {:induction false} LastFrameHold(m: P.Movie, cs: seq<Command>)
    requires m.decoder.video == [] && Starved(cs)
    ensures Run(m, cs).texture == m.texture
    decreases |cs|
  {
    if cs != [] {
      var m' := Step(m, cs[0]);
      StepVideo(m, cs[0]);
      StepTexture(m, cs[0]);
      assert !cs[0].Seek? && (cs[0].Arrive? ==> cs[0].video == []);
      assert Offered(m, cs[0]) == [];
      assert Starved(cs[1..]) by {
        forall i | 0 <= i < |cs[1..]|
          ensures !cs[1..][i].Seek? && (cs[1..][i].Arrive? ==> cs[1..][i].video == [])
        {
          assert cs[1..][i] == cs[i + 1];
        }
      }
      LastFrameHold(m', cs[1..]);
    }
  }

  /** Whatever is presented after any sequence of events is nothing, what was
      presented before, or a frame the decoder had ready before one of the
      events. */
  lemma {:induction false} PresentedFrameWasDecoded(m: P.Movie, cs: seq<Command>)
    ensures var t := Run(m, cs).texture;
      || t.None? || t == m.texture
      || exists j :: 0 <= j < |cs| && t.value.frame in Run(m, cs[..j]).decoder.video
    decreases |cs|
  {
    if cs != [] {
      var m' := Step(m, cs[0]);
      StepTexture(m, cs[0]);
      PresentedFrameWasDecoded(m', cs[1..]);
      var t := Run(m', cs[1..]).texture;
      assert Run(m, cs).texture == t;
      if t.Some? && t != m.texture {
        if t == m'.texture {
          assert cs[..0] == [];
          assert t.value.frame in Run(m, cs[..0]).decoder.video;
        } else {
          var j' :| 0 <= j' < |cs[1..]| && t.value.frame in Run(m', cs[1..][..j']).decoder.video;
          RunPrefix(m, cs, j');
          assert t.value.frame in Run(m, cs[..j' + 1]).decoder.video;
        }
      }
    }
  }

  /** Every frame in `video` has the size `w x h`. */
  predicate Sized(video: seq<VideoFrame>, w: nat, h: nat) {
    forall f :: f in video ==> f.width == w && f.height == h
  }

  /** Only ticks, and arrivals of frames of the size `w x h`. */
  predicate SteadyStream(cs: seq<Command>, w: nat, h: nat) {
    forall i :: 0 <= i < |cs| ==> cs[i].Tick? || (cs[i].Arrive? && Sized(cs[i].video, w, h))
  }

  /** A steady stream does not reallocate: when the texture set exists and
      every frame ready or arriving has the cached geometry, any number of
      ticks and arrivals keep the planes, the frame buffer object and the
      geometry. */
  lemma {:induction false} SteadyGeometryKeepsTextureSet(m: P.Movie, cs: seq<Command>)
    requires m.yPlane.Some? && m.uPlane.Some? && m.vPlane.Some? && m.fbo.Some?
    requires Sized(m.decoder.video, m.width, m.height)
    requires SteadyStream(cs, m.width, m.height)
    ensures var r := Run(m, cs);
      && r.width == m.width && r.height == m.height
      && r.yPlane == m.yPlane && r.uPlane == m.uPlane && r.vPlane == m.vPlane && r.fbo == m.fbo
    decreases |cs|
  {
    if cs != [] {
      var c := cs[0];
      var m' := Step(m, c);
      StepVideo(m, c);
      if c.Tick? && m.decoder.initialized {
        P.UpdateVideo(m, c.now);
        P.UpdateRealloc(m, c.now);
        var k := P.Decoded(m, m');
        if k > 0 {
          assert m.decoder.video[k - 1] in m.decoder.video;
        }
      }
      assert m'.width == m.width && m'.height == m.height;
      assert Sized(Offered(m, c), m.width, m.height);
      forall f | f in m'.decoder.video ensures f.width == m'.width && f.height == m'.height {
        SuffixMember(m'.decoder.video, Offered(m, c), f);
      }
      assert SteadyStream(cs[1..], m.width, m.height) by {
        forall i | 0 <= i < |cs[1..]|
          ensures cs[1..][i].Tick? || (cs[1..][i].Arrive? && Sized(cs[1..][i].video, m.width, m.height))
        {
          assert cs[1..][i] == cs[i + 1];
        }
      }
      SteadyGeometryKeepsTextureSet(m', cs[1..]);
    }
  }

  /** A seek to a new position, then a tick, presents a frame from the new
      position: with the decoder at 80 s and a frame at 80.04 s ready, seeking
      back to 50 s, where the decoder delivers a 50.0 s frame, presents that
      frame and not the stale one. */
  lemma SeekPresentsNewPosition()
    ensures var old1 := VideoFrame(80.04, 640, 360, 640, 320, 320);
      var new50 := VideoFrame(50.0, 640, 360, 640, 320, 320);
      var d := Decoder(true, false, 80.0, 25.0, [old1], [], 640, 360, 100.0, []);
      var m := P.Movie(d, None, Clock.Idle, 640, 360, 100.0, None, None, None, None, None);
      var r := Run(m, [Command.Seek(50.0, 0.0, 50.0, [new50], []), Tick(0.0)]);
      r.texture.Some? && r.texture.value.frame == new50 && r.decoder.video == []
  {
    var old1 := VideoFrame(80.04, 640, 360, 640, 320, 320);
    var new50 := VideoFrame(50.0, 640, 360, 640, 320, 320);
    var d := Decoder(true, false, 80.0, 25.0, [old1], [], 640, 360, 100.0, []);
    var m := P.Movie(d, None, Clock.Idle, 640, 360, 100.0, None, None, None, None, None);
    var cs := [Command.Seek(50.0, 0.0, 50.0, [new50], []), Tick(0.0)];
    var m1 := Step(m, cs[0]);
    assert m1.decoder.video == [new50] && m1.decoder.videoClock == 50.0 && m1.timer.Seconds(0.0) == 50.0;
    var a := P.AudioStep(m1, 0.0);
    assert a.pts == 50.0 && a.decoder.video == [new50] && a.decoder.videoClock == 50.0;
    assert CatchUpFrom(a.decoder, 50.0, HalfFrame(25.0), 0) == CatchUpFrom(a.decoder, 50.0, HalfFrame(25.0), 1);
    assert CatchUpTick(a.decoder, 50.0).taken == 1;
    assert cs[1..] == [Tick(0.0)] && [Tick(0.0)][1..] == [];
    assert Run(m, cs) == Run(m1, [Tick(0.0)]);
    assert Run(m1, [Tick(0.0)]) == Run(P.Update(m1, 0.0), []);
  }
}
