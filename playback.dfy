/**
 The state of a `MovieGl` and what each of its public operations does to it,
 as functions on values. `Movie` holds exactly the fields of `MovieGl`: the
 decoder, the optional audio renderer, the update timer, the cached geometry
 `mWidth`/`mHeight`, the duration, the three planar textures, the frame
 buffer object and the presented texture `mTexture`. GL objects are modelled
 by their allocated size only.
 */
module Playback {
  import opened Wrappers
  import opened Clock
  import opened Decoding
  import opened Audio
  import opened VideoPump

  /** A GL texture or frame buffer object, by the size it was allocated with. */
  datatype Plane = Plane(width: nat, height: nat)

  /** The colour texture of the frame buffer object, of the object's size,
      holding the conversion of `frame`. */
  datatype Texture = Texture(width: nat, height: nat, frame: VideoFrame)

  datatype Movie = Movie(
    decoder: Decoder,
    renderer: Option<Sink>,
    timer: Timer,
    width: nat,
    height: nat,
    duration: real,
    yPlane: Option<Plane>,
    uPlane: Option<Plane>,
    vPlane: Option<Plane>,
    fbo: Option<Plane>,
    texture: Option<Texture>)

  /** The texture set is allocated as one unit: the three planes and the frame
      buffer object exist together, the luma plane has the object's height and
      the chroma planes half of it, and the presented texture has the object's
      size. The audio renderer never holds more frames than it has room for. */
  predicate Valid(m: Movie) {
    && m.yPlane.Some? == m.fbo.Some?
    && m.uPlane.Some? == m.fbo.Some?
    && m.vPlane.Some? == m.fbo.Some?
    && (m.fbo.Some? ==>
          && m.yPlane.value.height == m.fbo.value.height
          && m.uPlane.value.height == m.fbo.value.height / 2
          && m.vPlane.value.height == m.fbo.value.height / 2)
    && (m.texture.Some? ==>
          m.fbo.Some? && m.texture.value.width == m.fbo.value.width && m.texture.value.height == m.fbo.value.height)
    && (m.renderer.Some? ==> |m.renderer.value.queued| <= m.renderer.value.capacity)
  }

  datatype OpenError = DecoderNotInitialized

  /** The constructor (CinderFFmpeg.cpp, lines 12-35): it fails when the
      decoder did not initialize; it creates an audio renderer with room for
      `bufferCapacity` frames exactly when the movie has audio and audio is
      wanted; nothing is allocated or presented yet. */
  function Open(d: Decoder, playAudio: bool, bufferCapacity: nat): (r: Result<Movie, OpenError>)
    ensures r.Failure? <==> !d.initialized
    ensures r.Success? ==>
      && r.value.decoder == d
      && (r.value.renderer.Some? <==> d.hasAudio && playAudio)
      && (r.value.renderer.Some? ==> r.value.renderer.value.queued == [] && r.value.renderer.value.capacity == bufferCapacity)
      && r.value.fbo.None? && r.value.texture.None?
      && !r.value.timer.running
      && Valid(r.value)
  {
    if !d.initialized then
      Failure(DecoderNotInitialized)
    else
      var renderer := if d.hasAudio && playAudio then Some(Sink([], bufferCapacity, 0.0, [])) else None;
      Success(Movie(d, renderer, Idle, 0, 0, 0.0, None, None, None, None, None))
  }

  /** The clock video is synchronised to: the renderer's `getCurrentPts` when
      there is a renderer, the update timer's seconds otherwise. */
  function ReferencePts(m: Movie, now: real): real {
    if m.renderer.Some? then m.renderer.value.pts else m.timer.Seconds(now)
  }

  datatype AudioOutcome = AudioOutcome(decoder: Decoder, renderer: Option<Sink>, pts: real)

  /** The audio part of `update` (lines 48-69). With a renderer: the decoder's
      next audio frames are queued in order while the renderer has room,
      stopping at the first failed decode or when it is full, then
      `flushBuffers` is called and the renderer's pts is the reference. Without
      one: if the movie has audio, all ready audio frames are decoded and
      dropped; the timer's seconds are the reference. Video is not touched. */
  function AudioStep(m: Movie, now: real): (r: AudioOutcome)
    ensures r.decoder == m.decoder.(audio := r.decoder.audio)
    ensures r.pts == ReferencePts(m, now)
    ensures r.renderer.Some? == m.renderer.Some?
    ensures m.renderer.Some? ==>
      var s, s' := m.renderer.value, r.renderer.value;
      && s' == s.(queued := s'.queued, log := s.log + [Flush])
      && |s.queued| <= |s'.queued| && s'.queued[..|s.queued|] == s.queued
      && m.decoder.audio == s'.queued[|s.queued|..] + r.decoder.audio
      && (!s'.HasBufferSpace() || r.decoder.audio == [])
      && (|s.queued| <= s.capacity ==> |s'.queued| <= s.capacity)
    ensures m.renderer.None? ==>
      r.decoder.audio == (if m.decoder.hasAudio then [] else m.decoder.audio)
  {
    match m.renderer
    case Some(s) =>
      var (d, s1) := Drain(m.decoder, s);
      var s2 := s1.Call(Flush);
      AudioOutcome(d, Some(s2), s2.pts)
    case None =>
      var d := if m.decoder.hasAudio then m.decoder.(audio := []) else m.decoder;
      AudioOutcome(d, None, m.timer.Seconds(now))
  }

  /** The reallocation test of line 96. */
  predicate NeedsRealloc(m: Movie, f: VideoFrame) {
    m.yPlane.None? || m.uPlane.None? || m.vPlane.None? || m.fbo.None?
    || f.height != m.height || f.width != m.width
  }

  /** Presenting a decoded frame (lines 94-161): the texture set is
      reallocated, with the luma plane `YLineSize x h`, the chroma planes
      `ULineSize x h/2` and `VLineSize x h/2` and the frame buffer object
      `w x h`, and the cached geometry becomes the frame's, exactly when the
      reallocation test holds; otherwise the set and the geometry are kept.
      Either way the presented texture becomes the object's colour texture
      holding the new frame. Nothing else changes. */
  function Present(m: Movie, f: VideoFrame): (r: Movie)
    ensures r.fbo.Some? && r.yPlane.Some? && r.uPlane.Some? && r.vPlane.Some?
    ensures NeedsRealloc(m, f) ==>
      && r.width == f.width && r.height == f.height
      && r.yPlane == Some(Plane(f.yLineSize, f.height))
      && r.uPlane == Some(Plane(f.uLineSize, f.height / 2))
      && r.vPlane == Some(Plane(f.vLineSize, f.height / 2))
      && r.fbo == Some(Plane(f.width, f.height))
    ensures !NeedsRealloc(m, f) ==>
      r.width == m.width && r.height == m.height && r.yPlane == m.yPlane && r.uPlane == m.uPlane
      && r.vPlane == m.vPlane && r.fbo == m.fbo
    ensures r.texture == Some(Texture(r.fbo.value.width, r.fbo.value.height, f))
    ensures r == m.(width := r.width, height := r.height, yPlane := r.yPlane, uPlane := r.uPlane,
                    vPlane := r.vPlane, fbo := r.fbo, texture := r.texture)
  {
    var m1 :=
      if NeedsRealloc(m, f) then
        m.(width := f.width, height := f.height,
           yPlane := Some(Plane(f.yLineSize, f.height)),
           uPlane := Some(Plane(f.uLineSize, f.height / 2)),
           vPlane := Some(Plane(f.vLineSize, f.height / 2)),
           fbo := Some(Plane(f.width, f.height)))
      else m;
    m1.(texture := Some(Texture(m1.fbo.value.width, m1.fbo.value.height, f)))
  }

  /** One tick, `MovieGl::update()` (lines 42-163), at wall time `now`. */
  function Update(m: Movie, now: real): (r: Movie)
    ensures !m.decoder.initialized ==> r == m
    ensures r.duration == m.duration
    ensures r.decoder == m.decoder.(video := r.decoder.video, videoClock := r.decoder.videoClock, audio := r.decoder.audio)
    ensures Valid(m) ==> Valid(r)
  {
    if !m.decoder.initialized then m
    else
      var a := AudioStep(m, now);
      var c := CatchUpTick(a.decoder, a.pts);
      var timer := if c.rebase.Some? then m.timer.Start(c.rebase.value, now) else m.timer;
      var m1 := m.(decoder := Advanced(a.decoder, c.taken), renderer := a.renderer, timer := timer);
      match LastDecoded(a.decoder, c.taken)
      case Some(f) => Present(m1, f)
      case None => m1
  }

  /** `play()` (lines 207-219): the decoder is started, the geometry and the
      duration are taken from the decoder and the timer starts at zero. */
  function Play(m: Movie, now: real): (r: Movie)
    ensures !m.decoder.initialized ==> r == m
    ensures m.decoder.initialized ==>
      && r.decoder == m.decoder.Call(DecoderCall.Start)
      && r.width == m.decoder.frameWidth && r.height == m.decoder.frameHeight
      && r.duration == m.decoder.duration
      && r.timer.running && r.timer.Seconds(now) == 0.0
      && r == m.(decoder := r.decoder, width := r.width, height := r.height, duration := r.duration, timer := r.timer)
  {
    if !m.decoder.initialized then m
    else
      var d := m.decoder.Call(DecoderCall.Start);
      m.(decoder := d, width := d.frameWidth, height := d.frameHeight, duration := d.duration,
         timer := m.timer.Start(0.0, now))
  }

  /** `stop()` (lines 221-233): decoder and renderer are stopped and the
      timer's reading is frozen. */
  function Stop(m: Movie, now: real): (r: Movie)
    ensures !m.decoder.initialized ==> r == m
    ensures m.decoder.initialized ==>
      && r.decoder == m.decoder.Call(DecoderCall.Stop)
      && r.renderer == (if m.renderer.Some? then Some(m.renderer.value.Call(SinkCall.Stop)) else None)
      && !r.timer.running
      && (forall later :: r.timer.Seconds(later) == m.timer.Seconds(now))
      && r == m.(decoder := r.decoder, renderer := r.renderer, timer := r.timer)
  {
    if !m.decoder.initialized then m
    else
      var renderer := if m.renderer.Some? then Some(m.renderer.value.Call(SinkCall.Stop)) else None;
      m.(decoder := m.decoder.Call(DecoderCall.Stop), renderer := renderer, timer := m.timer.Stop(now))
  }

  /** `pause()` (lines 235-247): decoder and renderer are paused and the
      timer's reading is frozen. */
  function Pause(m: Movie, now: real): (r: Movie)
    ensures !m.decoder.initialized ==> r == m
    ensures m.decoder.initialized ==>
      && r.decoder == m.decoder.Call(DecoderCall.Pause)
      && r.renderer == (if m.renderer.Some? then Some(m.renderer.value.Call(SinkCall.Pause)) else None)
      && !r.timer.running
      && (forall later :: r.timer.Seconds(later) == m.timer.Seconds(now))
      && r == m.(decoder := r.decoder, renderer := r.renderer, timer := r.timer)
  {
    if !m.decoder.initialized then m
    else
      var renderer := if m.renderer.Some? then Some(m.renderer.value.Call(SinkCall.Pause)) else None;
      m.(decoder := m.decoder.Call(DecoderCall.Pause), renderer := renderer, timer := m.timer.Stop(now))
  }

  /** `resume()` (lines 249-261): decoder and renderer play again and the
      timer restarts at the decoder's video clock. */
  function Resume(m: Movie, now: real): (r: Movie)
    ensures !m.decoder.initialized ==> r == m
    ensures m.decoder.initialized ==>
      && r.decoder == m.decoder.Call(DecoderCall.Resume)
      && r.renderer == (if m.renderer.Some? then Some(m.renderer.value.Call(SinkCall.Play)) else None)
      && r.timer.running
      && (forall later :: r.timer.Seconds(later) == m.decoder.videoClock + (later - now))
      && r == m.(decoder := r.decoder, renderer := r.renderer, timer := r.timer)
  {
    if !m.decoder.initialized then m
    else
      var renderer := if m.renderer.Some? then Some(m.renderer.value.Call(SinkCall.Play)) else None;
      m.(decoder := m.decoder.Call(DecoderCall.Resume), renderer := renderer,
         timer := m.timer.Start(m.decoder.videoClock, now))
  }

  /** `seekToTime(seconds)` (lines 263-279): the renderer's buffers are
      cleared, the decoder seeks, the timer restarts at `seconds`, the
      renderer plays, and the presented texture is dropped. */
  function SeekToTime(m: Movie, seconds: real, now: real): (r: Movie)
    ensures !m.decoder.initialized ==> r == m
    ensures m.decoder.initialized ==>
      && r.decoder == m.decoder.Call(DecoderCall.Seek(seconds))
      && r.renderer.Some? == m.renderer.Some?
      && (m.renderer.Some? ==>
            r.renderer.value == m.renderer.value.(queued := [], log := m.renderer.value.log + [Clear, SinkCall.Play]))
      && r.timer.running && r.timer.Seconds(now) == seconds
      && r.texture.None?
      && r == m.(decoder := r.decoder, renderer := r.renderer, timer := r.timer, texture := None)
  {
    if !m.decoder.initialized then m
    else
      var cleared := if m.renderer.Some? then Some(m.renderer.value.ClearBuffers()) else None;
      var d := m.decoder.Call(DecoderCall.Seek(seconds));
      var timer := m.timer.Start(seconds, now);
      var playing := if cleared.Some? then Some(cleared.value.Call(SinkCall.Play)) else None;
      m.(decoder := d, renderer := playing, timer := timer, texture := None)
  }

  /** `setLoop(loop)` (lines 281-287): forwarded to the decoder. */
  function SetLoop(m: Movie, on: bool): (r: Movie)
    ensures !m.decoder.initialized ==> r == m
    ensures m.decoder.initialized ==> r == m.(decoder := m.decoder.Call(DecoderCall.Loop(on)))
  {
    if !m.decoder.initialized then m else m.(decoder := m.decoder.Call(DecoderCall.Loop(on)))
  }

  /** `checkNewFrame()` (lines 170-180): false without a renderer or with an
      uninitialized decoder; otherwise whether the decoder's video clock is
      behind the renderer's pts. */
  function CheckNewFrame(m: Movie): (r: bool)
    ensures m.renderer.None? || !m.decoder.initialized ==> !r
    ensures m.renderer.Some? && m.decoder.initialized ==> (r <==> m.decoder.videoClock < m.renderer.value.pts)
  {
    if m.renderer.None? then false
    else if !m.decoder.initialized then false
    else m.decoder.videoClock < m.renderer.value.pts
  }

  /** The number of video frames a tick decoded. */
  function Decoded(m: Movie, r: Movie): int {
    |m.decoder.video| - |r.decoder.video|
  }

  /** The audio side of a tick, stated on the movie: with a renderer, the
      ready audio frames move in order into its queue until it is full or
      none is left, and `flushBuffers` is called once; without one, a movie
      with audio has all ready audio frames decoded and dropped, and a movie
      without audio decodes none. The renderer is otherwise untouched. */
  lemma UpdateAudio(m: Movie, now: real)
    requires m.decoder.initialized
    ensures var r := Update(m, now);
      && r.renderer.Some? == m.renderer.Some?
      && (m.renderer.Some? ==>
            var s, s' := m.renderer.value, r.renderer.value;
            && s' == s.(queued := s'.queued, log := s.log + [Flush])
            && |s.queued| <= |s'.queued| && s'.queued[..|s.queued|] == s.queued
            && m.decoder.audio == s'.queued[|s.queued|..] + r.decoder.audio
            && (!s'.HasBufferSpace() || r.decoder.audio == []))
      && (m.renderer.None? ==>
            r.decoder.audio == (if m.decoder.hasAudio then [] else m.decoder.audio))
  {
    var a := AudioStep(m, now);
    var c := CatchUpTick(a.decoder, a.pts);
    assert Update(m, now).decoder.audio == a.decoder.audio;
    assert Update(m, now).renderer == a.renderer;
  }

  /** The video side of a tick: it decodes at most 100 frames, the first k of
      those pending, and moves the decoder's clock to the last one's. With no
      frame decoded, the presented texture, the texture set and the geometry
      stay as they were (last-frame hold); otherwise the presented texture is
      the last decoded frame, in the frame buffer object's size, and every
      earlier frame of the tick is dropped. */
  lemma UpdateVideo(m: Movie, now: real)
    requires m.decoder.initialized
    ensures var r := Update(m, now);
      var k := Decoded(m, r);
      && 0 <= k <= MaxAttempts && k <= |m.decoder.video|
      && r.decoder.video == m.decoder.video[k..]
      && r.decoder.videoClock == ClockAfter(m.decoder, k)
      && (k == 0 ==>
            && r.texture == m.texture && r.width == m.width && r.height == m.height
            && r.yPlane == m.yPlane && r.uPlane == m.uPlane && r.vPlane == m.vPlane && r.fbo == m.fbo)
      && (k > 0 ==>
            r.fbo.Some? && r.texture == Some(Texture(r.fbo.value.width, r.fbo.value.height, m.decoder.video[k - 1])))
  {
    var a := AudioStep(m, now);
    var c := CatchUpTick(a.decoder, a.pts);
    assert a.decoder.video == m.decoder.video && a.decoder.videoClock == m.decoder.videoClock;
    assert |Update(m, now).decoder.video| == |m.decoder.video| - c.taken;
  }

  /** The texture set of a tick that decoded a frame f: reallocated, with the
      sizes taken from f, exactly when a plane or the frame buffer object is
      missing or f's size differs from the cached geometry; kept otherwise. */
  lemma UpdateRealloc(m: Movie, now: real)
    requires m.decoder.initialized
    ensures var r := Update(m, now);
      var k := Decoded(m, r);
      0 < k <= |m.decoder.video| ==>
        var f := m.decoder.video[k - 1];
        && (NeedsRealloc(m, f) ==>
              && r.width == f.width && r.height == f.height
              && r.yPlane == Some(Plane(f.yLineSize, f.height))
              && r.uPlane == Some(Plane(f.uLineSize, f.height / 2))
              && r.vPlane == Some(Plane(f.vLineSize, f.height / 2))
              && r.fbo == Some(Plane(f.width, f.height)))
        && (!NeedsRealloc(m, f) ==>
              && r.width == m.width && r.height == m.height
              && r.yPlane == m.yPlane && r.uPlane == m.uPlane && r.vPlane == m.vPlane && r.fbo == m.fbo)
  {
    var a := AudioStep(m, now);
    var c := CatchUpTick(a.decoder, a.pts);
    UpdateVideo(m, now);
    assert a.decoder.video == m.decoder.video;
  }

  /** The timer in a tick: restarted at the last decoded frame's clock exactly
      when that frame's clock is below the one before it (the movie looped);
      left alone otherwise. */
  lemma UpdateTimer(m: Movie, now: real)
    requires m.decoder.initialized
    ensures var r := Update(m, now);
      var k := Decoded(m, r);
      0 <= k <= |m.decoder.video|
      && r.timer == (if LoopedAt(m.decoder, k) then m.timer.Start(m.decoder.video[k - 1].clock, now) else m.timer)
  {
    var a := AudioStep(m, now);
    var c := CatchUpTick(a.decoder, a.pts);
    UpdateVideo(m, now);
    assert a.decoder.video == m.decoder.video && a.decoder.videoClock == m.decoder.videoClock;
    CatchUpRebase(a.decoder, a.pts, HalfFrame(a.decoder.fps), 0);
    assert LoopedAt(a.decoder, c.taken) == LoopedAt(m.decoder, c.taken);
  }

  /** A tick's video loop runs on the movie's own video frames and clock,
      against the reference pts, and the frames it decodes are the ones the
      tick consumes. */
  lemma UpdateTick(m: Movie, now: real)
    requires m.decoder.initialized
    ensures var a := AudioStep(m, now);
      var c := CatchUpTick(a.decoder, a.pts);
      && a.decoder.video == m.decoder.video && a.decoder.videoClock == m.decoder.videoClock
      && a.decoder.fps == m.decoder.fps && a.pts == ReferencePts(m, now)
      && c.taken <= |m.decoder.video|
      && Update(m, now).decoder.video == m.decoder.video[c.taken..]
      && Decoded(m, Update(m, now)) == c.taken
  {
  }

  /** The catch-up rule of a tick, against the reference pts: each frame was
      decoded while the clock was behind the reference, or, for the first
      frame, less than half a frame ahead of it; every frame but the last kept the clock going
      forwards, and unless the movie looped the tick stopped after 100
      decodes, once the clock caught up, or at the first failed decode. */
  lemma UpdateFollowsReferenceClock(m: Movie, now: real)
    requires m.decoder.initialized
    ensures var r := Update(m, now);
      var k := Decoded(m, r);
      var pts := ReferencePts(m, now);
      var lead := HalfFrame(m.decoder.fps);
      && 0 <= k <= |m.decoder.video|
      && (forall j :: 0 <= j < k ==> BeforeTarget(ClockAfter(m.decoder, j), pts, lead, j > 0))
      && (forall j :: 0 <= j < k - 1 ==> ClockAfter(m.decoder, j) <= m.decoder.video[j].clock)
      && (!LoopedAt(m.decoder, k) ==>
            k == MaxAttempts || k == |m.decoder.video| || !BeforeTarget(ClockAfter(m.decoder, k), pts, lead, k > 0))
  {
    var a := AudioStep(m, now);
    var lead := HalfFrame(m.decoder.fps);
    UpdateTick(m, now);
    CatchUpSameVideo(a.decoder, m.decoder, a.pts, lead, 0);
    CatchUpRequested(m.decoder, a.pts, lead, 0);
    CatchUpStop(m.decoder, a.pts, lead, 0);
    CatchUpRebase(m.decoder, a.pts, lead, 0);
  }

  /** `checkNewFrame()` announces work for the next tick: when it holds and
      the decoder has a frame ready, `update` decodes at least one frame. */
  lemma CheckNewFrameMeansDecode(m: Movie, now: real)
    requires CheckNewFrame(m) && m.decoder.video != [] && m.decoder.fps >= 0.0
    ensures Decoded(m, Update(m, now)) > 0
  {
    var a := AudioStep(m, now);
    UpdateTick(m, now);
    var lead := HalfFrame(m.decoder.fps);
    assert BeforeTarget(ClockAfter(a.decoder, 0), a.pts, lead, false);
    CatchUpUnfold(a.decoder, a.pts, lead, 0);
  }

  /** Pausing freezes the clock the timer reports, and resuming restarts it at
      the decoder's video clock, from which it advances with wall time. */
  lemma PauseResumeContinuity(m: Movie, paused: real, resumed: real, later: real)
    requires m.decoder.initialized
    ensures Pause(m, paused).timer.Seconds(resumed) == m.timer.Seconds(paused)
    ensures Resume(Pause(m, paused), resumed).timer.Seconds(later) == m.decoder.videoClock + (later - resumed)
  {
  }

  /** The reallocation test compares against `mWidth`/`mHeight`, which
      `play()` overwrites with the decoder's frame size. With a 1280x720
      texture set allocated and a decoder that reports and delivers 640x360
      frames, `play()` followed by a tick presents the 640x360 frame through
      the 1280x720 set without reallocating it. */
  lemma PlayKeepsTextureSetAfterGeometryChange()
    ensures var f := VideoFrame(0.0, 640, 360, 640, 320, 320);
      var d := Decoder(true, false, 0.0, 25.0, [f], [], 640, 360, 10.0, []);
      var m := Movie(d, None, Idle, 1280, 720, 10.0,
                     Some(Plane(1280, 720)), Some(Plane(640, 360)), Some(Plane(640, 360)),
                     Some(Plane(1280, 720)), None);
      var r := Update(Play(m, 0.0), 0.0);
      r.fbo == Some(Plane(1280, 720)) && r.texture == Some(Texture(1280, 720, f))
  {
    var f := VideoFrame(0.0, 640, 360, 640, 320, 320);
    var d := Decoder(true, false, 0.0, 25.0, [f], [], 640, 360, 10.0, []);
    var m := Movie(d, None, Idle, 1280, 720, 10.0,
                   Some(Plane(1280, 720)), Some(Plane(640, 360)), Some(Plane(640, 360)),
                   Some(Plane(1280, 720)), None);
    var p := Play(m, 0.0);
    assert p.width == 640 && p.height == 360;
    var a := AudioStep(p, 0.0);
    assert a.pts == 0.0 && a.decoder == p.decoder;
    var lead := HalfFrame(25.0);
    assert lead == Some(0.02);
    assert CatchUpFrom(a.decoder, 0.0, lead, 0) == CatchUpFrom(a.decoder, 0.0, lead, 1);
    assert CatchUpTick(a.decoder, 0.0).taken == 1;
    assert !NeedsRealloc(p, f);
  }
}

