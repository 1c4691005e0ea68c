/**
 The video catch-up loop of `MovieGl::update` (CinderFFmpeg.cpp, lines 72-92):
 decode until the decoder's video clock reaches the reference clock (with a
 half-frame lead while nothing has been decoded yet), at most 100 decode
 attempts per tick, keeping only the last decoded frame, and treating a
 backwards clock jump as the movie looping.
 */
module VideoPump {
  import opened Wrappers
  import opened Clock
  import opened Decoding

  /** The hard cap on decode attempts per tick. */
  const MaxAttempts: nat := 100

  /** Half of `frameDuration = 1 / fps` (line 77), the lead the loop allows
      before the first frame. With `fps == 0` the frame duration is IEEE
      positive infinity, written here as `None`. */
  function HalfFrame(fps: real): (lead: Option<real>)
    ensures lead.None? <==> fps == 0.0
    ensures fps > 0.0 ==> lead.Some? && lead.value > 0.0
  {
    if fps == 0.0 then None else Some((1.0 / fps) * 0.5)
  }

  /** The loop's continuation test on the clock:
      `videoClock < pts + (hasVideo ? 0 : frameDuration * 0.5)`; an infinite
      lead lets it pass while nothing has been decoded. */
  predicate BeforeTarget(clock: real, pts: real, lead: Option<real>, hasVideo: bool) {
    if hasVideo then clock < pts
    else if lead.None? then true
    else clock < pts + lead.value
  }

  /** The decoder's video clock after the first `j` pending frames were decoded. */
  function ClockAfter(d: Decoder, j: nat): real
    requires j <= |d.video|
  {
    if j == 0 then d.videoClock else d.video[j - 1].clock
  }

  /** The k-th decoded frame moved the clock backwards: the movie looped. */
  predicate LoopedAt(d: Decoder, k: nat)
    requires k <= |d.video|
  {
    k > 0 && d.video[k - 1].clock < ClockAfter(d, k - 1)
  }

  /** The outcome of the loop for one tick: how many pending frames it
      decoded, how many decode attempts it made, and the clock the timer was
      restarted at when a loop-around was seen. */
  datatype CatchUp = CatchUp(taken: nat, attempts: nat, rebase: Option<real>)

  /** The loop from the state at its head after `i` successful decodes, where
      nothing has broken out: `count` is then `i`, `hasVideo` is `i > 0`,
      `currentVideoClock` and the decoder's clock are `ClockAfter(d, i)`.
      It never gives back frames, it decodes at most one frame per attempt,
      and it makes at most 100 attempts. */
  function CatchUpFrom(d: Decoder, pts: real, lead: Option<real>, i: nat): (r: CatchUp)
    requires i <= |d.video| && i <= MaxAttempts
    ensures i <= r.taken <= |d.video|
    ensures r.taken <= r.attempts <= r.taken + 1 && r.attempts <= MaxAttempts
    decreases MaxAttempts - i
  {
    if !(BeforeTarget(ClockAfter(d, i), pts, lead, i > 0) && i < MaxAttempts) then
      CatchUp(i, i, None)
    else if i == |d.video| then
      CatchUp(i, i + 1, None)          // the decode failed
    else if ClockAfter(d, i) > d.video[i].clock then
      CatchUp(i + 1, i + 1, Some(d.video[i].clock))  // looped
    else
      CatchUpFrom(d, pts, lead, i + 1)
  }

  /** One step of the loop, unfolded: it stops, fails to decode, loops, or
      goes on with one more frame decoded. */
  lemma CatchUpUnfold(d: Decoder, pts: real, lead: Option<real>, i: nat)
    requires i <= |d.video| && i <= MaxAttempts
    ensures var go := BeforeTarget(ClockAfter(d, i), pts, lead, i > 0) && i < MaxAttempts;
      && (!go ==> CatchUpFrom(d, pts, lead, i) == CatchUp(i, i, None))
      && (go && i == |d.video| ==> CatchUpFrom(d, pts, lead, i) == CatchUp(i, i + 1, None))
      && (go && i < |d.video| && ClockAfter(d, i) > d.video[i].clock ==>
            CatchUpFrom(d, pts, lead, i) == CatchUp(i + 1, i + 1, Some(d.video[i].clock)))
      && (go && i < |d.video| && ClockAfter(d, i) <= d.video[i].clock ==>
            CatchUpFrom(d, pts, lead, i) == CatchUpFrom(d, pts, lead, i + 1))
  {
  }

  /** The loop restarts the timer exactly when the last frame it decoded has
      a clock below the one before it, and then at that frame's clock. */
  lemma {:induction false} CatchUpRebase(d: Decoder, pts: real, lead: Option<real>, i: nat)
    requires i <= |d.video| && i <= MaxAttempts
    ensures var r := CatchUpFrom(d, pts, lead, i);
      && (r.rebase.Some? <==> r.taken > i && LoopedAt(d, r.taken))
      && (r.rebase.Some? ==> r.rebase.value == d.video[r.taken - 1].clock && r.attempts == r.taken)
    decreases MaxAttempts - i
  {
    CatchUpUnfold(d, pts, lead, i);
    if BeforeTarget(ClockAfter(d, i), pts, lead, i > 0) && i < MaxAttempts && i < |d.video|
       && ClockAfter(d, i) <= d.video[i].clock
    {
      CatchUpRebase(d, pts, lead, i + 1);
    }
  }

  /** The loop looks only at the decoder's video frames and video clock. */
  lemma {:induction false} CatchUpSameVideo(d1: Decoder, d2: Decoder, pts: real, lead: Option<real>, i: nat)
    requires d1.video == d2.video && d1.videoClock == d2.videoClock
    requires i <= |d1.video| && i <= MaxAttempts
    ensures CatchUpFrom(d1, pts, lead, i) == CatchUpFrom(d2, pts, lead, i)
    decreases MaxAttempts - i
  {
    assert ClockAfter(d1, i) == ClockAfter(d2, i);
    CatchUpUnfold(d1, pts, lead, i);
    CatchUpUnfold(d2, pts, lead, i);
    if BeforeTarget(ClockAfter(d1, i), pts, lead, i > 0) && i < MaxAttempts && i < |d1.video|
       && ClockAfter(d1, i) <= d1.video[i].clock
    {
      CatchUpSameVideo(d1, d2, pts, lead, i + 1);
    }
  }

  /** The loop as `update` starts it: nothing decoded, no attempt made. */
  function CatchUpTick(d: Decoder, pts: real): CatchUp {
    CatchUpFrom(d, pts, HalfFrame(d.fps), 0)
  }

  /** The decoder after the loop decoded `taken` frames. */
  function Advanced(d: Decoder, taken: nat): Decoder
    requires taken <= |d.video|
  {
    d.(video := d.video[taken..], videoClock := ClockAfter(d, taken))
  }

  /** Decoding one more frame advances the decoder by one. */
  lemma AdvancedStep(d: Decoder, i: nat)
    requires i < |d.video|
    ensures Advanced(d, i).video != []
    ensures Advanced(d, i).video[0] == d.video[i]
    ensures Advanced(d, i).DecodeVideo() == Advanced(d, i + 1)
  {
    assert d.video[i..][1..] == d.video[i + 1..];
  }

  /** The frame the loop leaves in `videoFrame`: the last one decoded. */
  function LastDecoded(d: Decoder, taken: nat): Option<VideoFrame>
    requires taken <= |d.video|
  {
    if taken == 0 then None else Some(d.video[taken - 1])
  }

  /** Why each frame was decoded: every frame was requested while the clock
      test held and fewer than 100 attempts had been made, and every decoded
      frame except the last kept the clock from going backwards. */
  lemma {:induction false} CatchUpRequested(d: Decoder, pts: real, lead: Option<real>, i: nat)
    requires i <= |d.video| && i <= MaxAttempts
    ensures var r := CatchUpFrom(d, pts, lead, i);
      && (forall j :: i <= j < r.taken ==>
            j < MaxAttempts && BeforeTarget(ClockAfter(d, j), pts, lead, j > 0))
      && (forall j :: i <= j < r.taken - 1 ==> ClockAfter(d, j) <= d.video[j].clock)
    decreases MaxAttempts - i
  {
    CatchUpUnfold(d, pts, lead, i);
    if BeforeTarget(ClockAfter(d, i), pts, lead, i > 0) && i < MaxAttempts && i < |d.video|
       && ClockAfter(d, i) <= d.video[i].clock
    {
      CatchUpRequested(d, pts, lead, i + 1);
    }
  }

  /** Why the loop stopped: unless the movie looped, because 100 attempts
      were made, because the clock test failed, or at the first failed
      decode, which was attempted under the clock test and below the cap. */
  lemma {:induction false} CatchUpStop(d: Decoder, pts: real, lead: Option<real>, i: nat)
    requires i <= |d.video| && i <= MaxAttempts
    ensures var r := CatchUpFrom(d, pts, lead, i);
      r.rebase.None? ==>
        || (r.attempts == r.taken
            && (r.attempts == MaxAttempts || !BeforeTarget(ClockAfter(d, r.taken), pts, lead, r.taken > 0)))
        || (&& r.attempts == r.taken + 1 && r.taken == |d.video|
            && r.taken < MaxAttempts && BeforeTarget(ClockAfter(d, r.taken), pts, lead, r.taken > 0))
    decreases MaxAttempts - i
  {
    if BeforeTarget(ClockAfter(d, i), pts, lead, i > 0) && i < MaxAttempts && i < |d.video|
       && !(ClockAfter(d, i) > d.video[i].clock)
    {
      CatchUpStop(d, pts, lead, i + 1);
      assert CatchUpFrom(d, pts, lead, i) == CatchUpFrom(d, pts, lead, i + 1);
    }
  }

  /** The loop of `update`, as the source runs it. The source's
      `count++ < 100` is tested after the clock test and only then counted;
      here the test is `count < MaxAttempts` and the count is taken at the top
      of the body, which differs only in the final value of the local. */
  method CatchUpVideo(d0: Decoder, timer0: Timer, pts: real, now: real)
    returns (d: Decoder, timer: Timer, frame: Option<VideoFrame>)
    ensures var r := CatchUpTick(d0, pts);
      && d == Advanced(d0, r.taken)
      && frame == LastDecoded(d0, r.taken)
      && timer == (if r.rebase.Some? then timer0.Start(r.rebase.value, now) else timer0)
  {
    d, timer := d0, timer0;
    var hasVideo := false;
    var count: nat := 0;
    frame := None;
    var currentVideoClock := d.videoClock;
    var lead := HalfFrame(d.fps);
    while BeforeTarget(d.videoClock, pts, lead, hasVideo) && count < MaxAttempts
      invariant count <= |d0.video| && count <= MaxAttempts
      invariant d == Advanced(d0, count)
      invariant frame == LastDecoded(d0, count)
      invariant hasVideo == (count > 0)
      invariant currentVideoClock == d.videoClock
      invariant timer == timer0
      invariant lead == HalfFrame(d0.fps)
      invariant CatchUpFrom(d0, pts, lead, count) == CatchUpTick(d0, pts)
      decreases MaxAttempts - count
    {
      ghost var i := count;
      assert currentVideoClock == ClockAfter(d0, i) && |d.video| == |d0.video| - i;
      CatchUpUnfold(d0, pts, lead, i);
      count := count + 1;
      if d.video != [] {
        AdvancedStep(d0, i);
        frame := Some(d.video[0]);
        d := d.DecodeVideo();
        hasVideo := true;
        assert d.videoClock == d0.video[i].clock;
        if currentVideoClock > d.videoClock {
          assert CatchUpTick(d0, pts) == CatchUp(count, count, Some(d.videoClock));
          timer := timer.Start(d.videoClock, now);
          break;  // looped
        }
        currentVideoClock := d.videoClock;
      } else {
        assert CatchUpTick(d0, pts) == CatchUp(i, count, None);
        break;
      }
    }
  }

  /** A movie that loops during a tick: with the decoder at 9.7 s, clocks
      9.8, 9.9, 0.1, 0.2 pending, 10 frames per second and reference 9.95 s,
      the tick decodes three frames, sees the jump back to 0.1, restarts the
      timer there and leaves the 0.2 frame for the next tick. */
  lemma LoopWrapExample()
    ensures var d := Decoder(true, false, 9.7, 10.0,
                             [At(9.8), At(9.9), At(0.1), At(0.2)], [], 0, 0, 0.0, []);
      var r := CatchUpTick(d, 9.95);
      r.taken == 3 && r.attempts == 3 && r.rebase == Some(0.1)
  {
    var d := Decoder(true, false, 9.7, 10.0, [At(9.8), At(9.9), At(0.1), At(0.2)], [], 0, 0, 0.0, []);
    var lead := HalfFrame(10.0);
    assert lead == Some(0.05);
    assert CatchUpFrom(d, 9.95, lead, 0) == CatchUpFrom(d, 9.95, lead, 1);
    assert CatchUpFrom(d, 9.95, lead, 1) == CatchUpFrom(d, 9.95, lead, 2);
    assert CatchUpFrom(d, 9.95, lead, 2) == CatchUp(3, 3, Some(0.1));
  }

  /** The lead lets the first frame be decoded while the clock is ahead of
      the reference: with the decoder at 1.01 s, reference 1.0 s and 25
      frames per second (a lead of 0.02 s), the tick decodes the 1.05 s
      frame, and then stops because the clock is no longer behind. */
  lemma FirstFrameLeadExample()
    ensures var d := Decoder(true, false, 1.01, 25.0, [At(1.05), At(1.09)], [], 0, 0, 0.0, []);
      var r := CatchUpTick(d, 1.0);
      r.taken == 1 && r.attempts == 1 && r.rebase.None?
  {
    var d := Decoder(true, false, 1.01, 25.0, [At(1.05), At(1.09)], [], 0, 0, 0.0, []);
    var lead := HalfFrame(25.0);
    assert lead == Some(0.02);
    assert CatchUpFrom(d, 1.0, lead, 0) == CatchUpFrom(d, 1.0, lead, 1);
    assert CatchUpFrom(d, 1.0, lead, 1) == CatchUp(1, 1, None);
  }

  /** A frame of no size, identified by its clock. */
  function At(clock: real): VideoFrame {
    VideoFrame(clock, 0, 0, 0, 0, 0)
  }
}

