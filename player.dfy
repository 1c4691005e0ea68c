/**
 `MovieGl`, the object the host holds: its fields are updated in place by
 `update` and by the control operations, each proved against the function of
 the same name in `Playback`.
 */
module Player {
  import opened Wrappers
  import opened Clock
  import opened Decoding
  import opened Audio
  import opened VideoPump
  import P = Playback

  class MovieGl {
    var decoder: Decoder          // mMovieDecoder
    var renderer: Option<Sink>    // mAudioRenderer
    var timer: Timer              // mUpdateTimer
    var width: nat                // mWidth
    var height: nat               // mHeight
    var duration: real            // mDuration
    var yPlane: Option<P.Plane>   // mYPlane
    var uPlane: Option<P.Plane>   // mUPlane
    var vPlane: Option<P.Plane>   // mVPlane
    var fbo: Option<P.Plane>      // mFbo
    var texture: Option<P.Texture>  // mTexture

    /** The object's state as a value. */
    function Model(): P.Movie
      reads this
    {
      P.Movie(decoder, renderer, timer, width, height, duration, yPlane, uPlane, vPlane, fbo, texture)
    }

    /** The constructor; a decoder that did not initialize makes it throw,
        which `P.Open` reports as a failure. */
    constructor (d: Decoder, playAudio: bool, bufferCapacity: nat)
      requires d.initialized
      ensures P.Open(d, playAudio, bufferCapacity).Success?
      ensures Model() == P.Open(d, playAudio, bufferCapacity).value
    {
      decoder := d;
      renderer := if d.hasAudio && playAudio then Some(Sink([], bufferCapacity, 0.0, [])) else None;
      timer := Idle;
      width, height, duration := 0, 0, 0.0;
      yPlane, uPlane, vPlane, fbo := None, None, None, None;
      texture := None;
    }

    /** `update()` at wall time `now`. */
    method Update(now: real)
      modifies this
      ensures Model() == P.Update(old(Model()), now)
    {
      if !decoder.initialized {
        return;
      }
      ghost var a := P.AudioStep(Model(), now);
      var currentPts := DecodeAudioForTick(now);

      // decode video
      var videoFrame;
      decoder, timer, videoFrame := CatchUpVideo(decoder, timer, currentPts, now);
      ghost var c := CatchUpTick(a.decoder, a.pts);
      assert Model() == old(Model()).(decoder := Advanced(a.decoder, c.taken), renderer := a.renderer, timer := timer);

      if videoFrame.Some? {
        PresentFrame(videoFrame.value);
      }
    }

    /** Lines 47-69 of `update()`: audio, and the reference pts it yields. */
    method DecodeAudioForTick(now: real) returns (currentPts: real)
      modifies this
      ensures var a := P.AudioStep(old(Model()), now);
        Model() == old(Model()).(decoder := a.decoder, renderer := a.renderer) && currentPts == a.pts
    {
      var a := AudioTick(Model(), now);
      decoder, renderer, currentPts := a.decoder, a.renderer, a.pts;
    }

    /** Lines 94-161 of `update()`, for the frame the tick decoded. */
    method PresentFrame(f: VideoFrame)
      modifies this
      ensures Model() == P.Present(old(Model()), f)
    {
      // resize textures if needed
      if yPlane.None? || uPlane.None? || vPlane.None? || fbo.None? || f.height != height || f.width != width {
        width := f.width;
        height := f.height;
        yPlane := Some(P.Plane(f.yLineSize, height));
        uPlane := Some(P.Plane(f.uLineSize, height / 2));
        vPlane := Some(P.Plane(f.vLineSize, height / 2));
        fbo := Some(P.Plane(width, height));
      }
      texture := Some(P.Texture(fbo.value.width, fbo.value.height, f));
    }

    /** `play()` at wall time `now`. */
    method Play(now: real)
      modifies this
      ensures Model() == P.Play(old(Model()), now)
    {
      if !decoder.initialized {
        return;
      }
      decoder := decoder.Call(DecoderCall.Start);
      width := decoder.frameWidth;
      height := decoder.frameHeight;
      duration := decoder.duration;
      timer := timer.Start(0.0, now);
    }

    /** `stop()` at wall time `now`. */
    method Stop(now: real)
      modifies this
      ensures Model() == P.Stop(old(Model()), now)
    {
      if !decoder.initialized {
        return;
      }
      decoder := decoder.Call(DecoderCall.Stop);
      if renderer.Some? {
        renderer := Some(renderer.value.Call(SinkCall.Stop));
      }
      timer := timer.Stop(now);
    }

    /** `pause()` at wall time `now`. */
    method Pause(now: real)
      modifies this
      ensures Model() == P.Pause(old(Model()), now)
    {
      if !decoder.initialized {
        return;
      }
      decoder := decoder.Call(DecoderCall.Pause);
      if renderer.Some? {
        renderer := Some(renderer.value.Call(SinkCall.Pause));
      }
      timer := timer.Stop(now);
    }

    /** `resume()` at wall time `now`. */
    method Resume(now: real)
      modifies this
      ensures Model() == P.Resume(old(Model()), now)
    {
      if !decoder.initialized {
        return;
      }
      decoder := decoder.Call(DecoderCall.Resume);
      if renderer.Some? {
        renderer := Some(renderer.value.Call(SinkCall.Play));
      }
      timer := timer.Start(decoder.videoClock, now);
    }

    /** `seekToTime(seconds)` at wall time `now`. */
    method SeekToTime(seconds: real, now: real)
      modifies this
      ensures Model() == P.SeekToTime(old(Model()), seconds, now)
    {
      if !decoder.initialized {
        return;
      }
      if renderer.Some? {
        renderer := Some(renderer.value.ClearBuffers());
      }
      decoder := decoder.Call(DecoderCall.Seek(seconds));
      timer := timer.Start(seconds, now);
      if renderer.Some? {
        renderer := Some(renderer.value.Call(SinkCall.Play));
      }
      texture := None;
    }

    /** `setLoop(loop)`. */
    method SetLoop(on: bool)
      modifies this
      ensures Model() == P.SetLoop(old(Model()), on)
    {
      if !decoder.initialized {
        return;
      }
      decoder := decoder.Call(DecoderCall.Loop(on));
    }

    /** `checkNewFrame()`. */
    method CheckNewFrame() returns (isNew: bool)
      ensures isNew == P.CheckNewFrame(Model())
      ensures isNew ==> renderer.Some? && decoder.initialized
    {
      if renderer.None? {
        return false;
      }
      if !decoder.initialized {
        return false;
      }
      return decoder.videoClock < renderer.value.pts;
    }
  }

  /** The audio part of `update()` on the collaborators' values: drain into
      the renderer and flush it, or discard the audio when there is no renderer. */
  method AudioTick(m: P.Movie, now: real) returns (a: P.AudioOutcome)
    ensures a == P.AudioStep(m, now)
  {
    if m.renderer.Some? {
      var d, s := DrainAudio(m.decoder, m.renderer.value);
      var s2 := s.Call(Flush);
      a := P.AudioOutcome(d, Some(s2), s2.pts);
    } else {
      var d := m.decoder;
      if d.hasAudio {
        d := DiscardAudio(d);
      }
      a := P.AudioOutcome(d, None, m.timer.Seconds(now));
    }
  }
}
