# MovieGl playback core, modelled in Dafny

This project models `MovieGl`, the Cinder movie player object built on an
FFmpeg decoder (`src/CinderFFmpeg.cpp`). Each frame the host calls
`update()`, and `update()` does four things in order:

- it feeds the audio renderer from the decoder, or throws audio away when there is no renderer;
- it takes a reference presentation time from the renderer, or from its own update timer;
- it decodes video until the decoder's video clock catches up with that reference, making at most 100 attempts and keeping only the last frame;
- it presents that frame, reallocating the planar texture set when the frame's size changed.

The control operations `play`, `stop`, `pause`, `resume`, `seekToTime`,
`setLoop` and `checkNewFrame` drive the decoder, the renderer and the timer.

The files:

- `decoding.dfy` (module `Decoding`): the decoder as an abstract frame source. It holds the video frames and audio frames ready at the time of a call, a video clock, a frame rate, and a log of the control calls it received.
- `audio.dfy` (module `Audio`): the bounded audio renderer, and the two audio loops of `update`. Both loops are `while` methods. The feeding loop is proved against the closed-form function `Drain`, and the discarding loop against a decoder with no audio left and nothing else changed.
- `clock.dfy` (module `Clock`): the update timer. It is a stopwatch whose wall time `now` is a parameter.
- `video.dfy` (module `VideoPump`): the video catch-up loop. It is a `while` method, proved against the recursive function `CatchUpFrom`, together with the loop's properties.
- `playback.dfy` (module `Playback`): the object's state as a value, `Movie`, with one function per public operation and the properties of a tick.
- `sessions.dfy` (module `Sessions`): any sequence of ticks and control calls, with properties that hold over all of them. Between calls, the decoder's reader thread can make frames ready (`Arrive`). A seek carries the frames the decoder delivers from the new position.
- `player.dfy` (module `Player`): the class `MovieGl`. Its fields are the source's members, and its methods update them in place. Each public method is proved equal to the `Playback` function of the same name. The two helpers of `Update` are proved against `Playback.AudioStep` and `Playback.Present`.

How the source was read:

- With `fps == 0`, the source computes `1. / 0.`, which is positive infinity. The half-frame lead is then unbounded, so the first decode is always attempted. `HalfFrame` models this case as `None` instead of requiring `fps > 0`.
- The loop guard `count++ < 100` is modelled as `count < 100` with the increment at the top of the body. The number of decode attempts comes out the same; only the final value of the local differs.
- A tick in the paused state runs exactly like any other tick, because the source has no guard. The reference is then the frozen timer, or the renderer's pts.

## Model

| member | source | states |
|---|---|---|
| Clock.Timer.Start | src/CinderFFmpeg.cpp:85 | `start(offset)`: the timer runs, its reading `Seconds` (`getSeconds()`) is `offset` now, and from then on it advances with wall time |
| Clock.Timer.Stop | src/CinderFFmpeg.cpp:232 | `stop()`: the timer is stopped and its reading stays frozen at what it read when stopped, at any later time |
| Audio.Drain | src/CinderFFmpeg.cpp:50-56 | Feeding the renderer: the decoder's next audio frames are appended in order to the queue, and the old queue stays as a prefix. Decoded and queued frames together are exactly the frames that were ready. It stops only when the renderer is full or no frame is left. A full renderer receives nothing. The capacity is never exceeded. Nothing else changes |
| Audio.DrainAudio | src/CinderFFmpeg.cpp:50-56 | The `while (hasBufferSpace())` loop computes exactly `Drain` |
| Audio.DiscardAudio | src/CinderFFmpeg.cpp:63-67 | The discard loop leaves no audio frame ready and changes nothing else about the decoder |
| VideoPump.HalfFrame | src/CinderFFmpeg.cpp:77-78 | The half-frame lead is unbounded exactly when fps is 0, and positive when fps is positive |
| VideoPump.CatchUpFrom | src/CinderFFmpeg.cpp:72-92 | The catch-up loop from any loop head, with the line-78 test as `BeforeTarget`: it never gives frames back, decodes at most one frame per attempt, and makes at most 100 attempts |
| VideoPump.CatchUpRebase | src/CinderFFmpeg.cpp:84-87 | The loop restarts the timer exactly when the last decoded frame's clock is below the clock before it (`LoopedAt`), and then at that frame's clock; that break costs no further attempt |
| VideoPump.CatchUpSameVideo | src/CinderFFmpeg.cpp:76-92 | The loop reads only the decoder's video frames and video clock, so the audio a tick decoded first does not affect it |
| VideoPump.CatchUpUnfold | src/CinderFFmpeg.cpp:78-91 | One iteration: the loop stops when the clock test or the 100-attempt cap fails. Otherwise a failed decode ends it after one more attempt, and a backwards clock ends it with the timer restarted. Any other decode goes on to the next head |
| VideoPump.CatchUpRequested | src/CinderFFmpeg.cpp:78-88 | Every decoded frame was requested while fewer than 100 attempts had been made and the clock was behind the reference, or, for the first frame, less than half a frame ahead of it. No frame but the last moved the clock backwards |
| VideoPump.CatchUpStop | src/CinderFFmpeg.cpp:78-92 | Unless the movie looped, the loop stopped for one of three reasons: 100 attempts were made, the clock caught up, or a decode failed, in which case every ready frame was taken and the failed attempt was made under the clock test and below the cap |
| VideoPump.CatchUpVideo | src/CinderFFmpeg.cpp:72-92 | The loop as written: the decoder advances by the frames `CatchUpTick` takes and `videoFrame` is the last of them. The timer is restarted exactly when the tick saw a loop-around |
| VideoPump.FirstFrameLeadExample | src/CinderFFmpeg.cpp:77-78 | Concrete lead: decoder at 1.01 s, reference 1.0 s, 25 fps. The tick decodes the 1.05 s frame although the clock is ahead of the reference, then stops |
| VideoPump.LoopWrapExample | src/CinderFFmpeg.cpp:84-87 | Concrete loop-around: decoder at 9.7 s, frames at 9.8/9.9/0.1/0.2, 10 fps, reference 9.95 s. The tick takes three frames, restarts the timer at 0.1 and leaves the 0.2 frame |
| Playback.Open | src/CinderFFmpeg.cpp:12-35 | Construction fails exactly when the decoder did not initialize. Otherwise a renderer exists exactly when the movie has audio and audio is wanted, and that renderer starts empty. Nothing is allocated or presented and the timer is idle |
| Playback.AudioStep | src/CinderFFmpeg.cpp:47-69 | The audio part of a tick: with a renderer, the queue is extended as `Drain` does and `flushBuffers` is called once. Without one, the ready audio is dropped when the movie has audio. The reference pts (`ReferencePts`, lines 60 and 68) is the renderer's pts or the timer reading. Video is untouched |
| Playback.Present | src/CinderFFmpeg.cpp:94-161 | Presenting a frame: the texture set is reallocated with sizes `YLineSize x h`, `ULineSize x h/2`, `VLineSize x h/2` and fbo `w x h`, exactly when the line-96 test `NeedsRealloc` holds: a plane or the fbo is missing, or the frame's size differs from the cached one. Otherwise the set and geometry are kept. The presented texture is the fbo's colour texture holding the frame |
| Playback.Update | src/CinderFFmpeg.cpp:42-163 | An uninitialized decoder makes a tick do nothing. A tick changes only the decoder's ready video and audio frames and its video clock; the decoder's log, audio flag, frame size and duration are as they were. It keeps the movie's duration and preserves the texture-set invariant `Valid` |
| Playback.Play | src/CinderFFmpeg.cpp:207-219 | The decoder is started, the cached geometry and duration are taken from the decoder, and the timer runs from 0. Nothing else changes, and nothing changes when the decoder is uninitialized |
| Playback.Stop | src/CinderFFmpeg.cpp:221-233 | The decoder and renderer are stopped and the timer reading is frozen. Nothing else changes, and nothing changes when the decoder is uninitialized |
| Playback.Pause | src/CinderFFmpeg.cpp:235-247 | The decoder and renderer are paused and the timer reading is frozen. Nothing else changes, and nothing changes when the decoder is uninitialized |
| Playback.Resume | src/CinderFFmpeg.cpp:249-261 | The decoder resumes, the renderer plays, and the timer restarts at the decoder's video clock. Nothing else changes, and nothing changes when the decoder is uninitialized |
| Playback.SeekToTime | src/CinderFFmpeg.cpp:263-279 | The renderer's buffers are cleared and then it plays. The decoder seeks, the timer reads `seconds` and the presented texture is dropped. Nothing else changes, and nothing changes when the decoder is uninitialized |
| Playback.SetLoop | src/CinderFFmpeg.cpp:281-287 | The loop flag is forwarded to the decoder and nothing else changes. Nothing changes when the decoder is uninitialized |
| Playback.CheckNewFrame | src/CinderFFmpeg.cpp:170-180 | The result is false without a renderer or with an uninitialized decoder. Otherwise it is true exactly when the video clock is behind the renderer's pts |
| Playback.UpdateAudio | src/CinderFFmpeg.cpp:47-69 | Over a whole tick: ready audio goes in order into the renderer until it is full or none is left, and `flushBuffers` is called once. Without a renderer, a movie with audio has its audio dropped |
| Playback.UpdateVideo | src/CinderFFmpeg.cpp:72-161 | A tick decodes at most 100 frames, the first k of those ready, and moves the video clock to the last one's. With k = 0, the texture, texture set and geometry are kept (last-frame hold). Otherwise the texture is the k-th frame at the fbo's size, and earlier frames are dropped |
| Playback.UpdateRealloc | src/CinderFFmpeg.cpp:94-114 | For the frame a tick presents, the texture set is reallocated from that frame's sizes exactly when the reallocation test holds, and kept otherwise |
| Playback.UpdateTimer | src/CinderFFmpeg.cpp:84-87 | A tick restarts the timer at the last decoded frame's clock exactly when that frame moved the clock backwards, and leaves the timer alone otherwise |
| Playback.UpdateFollowsReferenceClock | src/CinderFFmpeg.cpp:76-92 | Against the reference pts of the tick (`ReferencePts`), with the line-78 test `BeforeTarget`: each frame was decoded while the clock was behind the reference, or, for the first frame, less than half a frame ahead of it. The clock never went backwards before the last frame. Unless it looped, the tick stopped at 100 frames, at the last ready frame, or when the clock caught up |
| Playback.CheckNewFrameMeansDecode | src/CinderFFmpeg.cpp:170-180 | When `checkNewFrame()` holds and a frame is ready, the next tick decodes at least one frame (for a non-negative frame rate) |
| Playback.PauseResumeContinuity | src/CinderFFmpeg.cpp:235-261 | After a pause the timer keeps the reading it had when paused. After a resume it reads the decoder's video clock plus the wall time elapsed since resuming |
| Playback.PlayKeepsTextureSetAfterGeometryChange | src/CinderFFmpeg.cpp:214-215 | Starting state: a 1280x720 texture set, and a decoder that reports and delivers 640x360 frames. `play()` then a tick presents the 640x360 frame through the 1280x720 set without reallocating, because `play()` already overwrote the cached geometry |
| Sessions.StepVideo | src/CinderFFmpeg.cpp:42-287 | Frames become ready only by arriving or by a seek: after one event, the frames ready are a suffix of what was ready plus what arrived, or of what the seek brought. Initialization and frame rate are unchanged |
| Sessions.StepTexture | src/CinderFFmpeg.cpp:42-287 | After one event, the presented texture is one of three things: unchanged, dropped by a seek, or a tick's frame that the decoder had ready |
| Sessions.StepValid | src/CinderFFmpeg.cpp:42-287 | Every event preserves the texture-set and buffer invariant `Valid` |
| Sessions.RunUninitialized | src/CinderFFmpeg.cpp:42-287 | A movie whose decoder did not initialize is unchanged by any sequence of events |
| Sessions.RunValid | src/CinderFFmpeg.cpp:42-287 | `Valid` holds after any sequence of events |
| Sessions.LastFrameHold | src/CinderFFmpeg.cpp:94-161 | With no video frame ready and none arriving, no sequence of events without a seek changes the presented texture |
| Sessions.PresentedFrameWasDecoded | src/CinderFFmpeg.cpp:42-287 | After any sequence of events, the presented texture is one of three things: nothing, what was presented before, or a frame the decoder had ready in the state before one of the events |
| Sessions.SteadyGeometryKeepsTextureSet | src/CinderFFmpeg.cpp:96-114 | If the texture set exists and every frame ready or arriving has the cached size, any number of ticks and arrivals keep the planes, the fbo and the geometry |
| Sessions.SeekPresentsNewPosition | src/CinderFFmpeg.cpp:263-279 | Concrete: with the decoder at 80 s and a stale 80.04 s frame ready, a seek to 50 s that brings a 50 s frame, followed by a tick, presents the 50 s frame |
| Player.AudioTick | src/CinderFFmpeg.cpp:47-69 | The audio part of a tick, run with its loops, computes exactly `AudioStep` |
| Player.MovieGl.constructor | src/CinderFFmpeg.cpp:12-35 | For an initialized decoder, the new object's state is the successful result of `Open` |
| Player.MovieGl.Update | src/CinderFFmpeg.cpp:42-163 | `update()` changes the object's fields exactly as the tick `Update` says |
| Player.MovieGl.DecodeAudioForTick | src/CinderFFmpeg.cpp:47-69 | The audio part of the tick updates the decoder and renderer fields as `AudioStep` says, returns its reference pts, and changes nothing else |
| Player.MovieGl.PresentFrame | src/CinderFFmpeg.cpp:94-161 | Presenting the decoded frame changes the fields exactly as `Present` says |
| Player.MovieGl.Play | src/CinderFFmpeg.cpp:207-219 | The fields change exactly as `Play` says |
| Player.MovieGl.Stop | src/CinderFFmpeg.cpp:221-233 | The fields change exactly as `Stop` says |
| Player.MovieGl.Pause | src/CinderFFmpeg.cpp:235-247 | The fields change exactly as `Pause` says |
| Player.MovieGl.Resume | src/CinderFFmpeg.cpp:249-261 | The fields change exactly as `Resume` says |
| Player.MovieGl.SeekToTime | src/CinderFFmpeg.cpp:263-279 | The fields change exactly as `SeekToTime` says |
| Player.MovieGl.SetLoop | src/CinderFFmpeg.cpp:281-287 | The fields change exactly as `SetLoop` says |
| Player.MovieGl.CheckNewFrame | src/CinderFFmpeg.cpp:170-180 | It returns `CheckNewFrame` of the current state and changes nothing |

## Left out

- GL work: format choices, the pixel uploads, the shader pass into the fbo and the draw (lines 100-158) are left out. A GL object is modelled only by the size it was allocated with.
- The YUV-to-RGB shader (`initializeShader`, lines 289-342) and the padding ratio of the texture coordinates (line 157) are left out, because they are pure rendering.
- Decoder internals (demuxing, the reader thread, seeking, looping) are left out. The decoder is a source of ready frames, and what its threads make ready between two calls is the state given to the next call.
- `Sessions.Deliver` and `Sessions.Reposition` are assumptions about the decoder, not behaviour of `MovieGl`, so they carry no contract. `Deliver` is the reader thread (include/movierenderer/moviedecoder.h, lines 107-115) appending frames between calls. `Reposition` is the decoder after a seek, with the video clock and ready frames of the new position.
- `Playback.SeekToTime` only records the seek on the decoder, because what the decoder flushes on a seek is not visible from `MovieGl`. In `Sessions`, a seek event also replaces the video clock and the ready frames with those of the new position, which are given with the event. The decoder's own seek logic is not modelled.
- A failed `decodeVideoFrame` is taken to leave the frame and the video clock as they were.
- Renderer internals (OpenAL buffers, the pts it reports) are left out. Its pts and capacity are state given from outside, and the capacity is a constructor parameter here.
- Renderer progress across a session: no `Sessions` event plays out the renderer's buffers, so over a sequence of events its pts stays where it started and a full queue stays full. Properties of `Sessions` are stated for a renderer held in that state.
- The timer's wall clock is an explicit `now` parameter instead of a system clock read.
- Floating point: times are exact reals, `float seconds` in `seekToTime` is a real, and `getSeconds` is exact. The one IEEE case modelled is `fps == 0`, which gives an unbounded lead. A negative frame rate runs as written, but `CheckNewFrameMeansDecode` requires a non-negative one.
- Player.MovieGl.constructor: the thrown `logic_error` becomes a precondition on the class constructor. The failing case is modelled by `Playback.Open`, which returns a failure.
- The destructor (lines 37-40) calls `stop()`, which `Stop` models; the object's destruction itself is left out.
- The logging call at line 81 and the getters (lines 165-205) are left out, because they do not change state.
- Texture aliasing: `mTexture` (line 161) is a handle to the fbo's one colour attachment, shared with the fbo. A handle the host kept shows every later frame, and after `mTexture.reset()` (line 278) the fbo still holds the last frame. The model's `Texture(w, h, f)` is a value copy, so it does not capture this sharing.
- Concurrency: each call is one atomic step on the state.
