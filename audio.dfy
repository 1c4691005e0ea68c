/**
 The audio side of one `MovieGl::update` tick: the bounded audio sink (the
 audio renderer) and the two draining loops of the source, one that feeds the
 sink while it has buffer space and one that decodes and discards audio when
 there is no sink.
 */
module Audio {
  import opened Decoding

  /** The calls `MovieGl` makes on its audio renderer, besides queueing frames. */
  datatype SinkCall = Flush | Play | Pause | Stop | Clear

  /** The audio renderer: the frames queued in its buffers (at most `capacity`
      of them have room), the presentation time it reports
      (`getCurrentPts`), and the calls it has received. */
  datatype Sink = Sink(queued: seq<AudioFrame>, capacity: nat, pts: real, log: seq<SinkCall>) {

    /** `hasBufferSpace()`. */
    predicate HasBufferSpace() {
      |queued| < capacity
    }

    /** `queueFrame(frame)`. */
    function Queue(frame: AudioFrame): Sink {
      this.(queued := queued + [frame])
    }

    /** Records a call that does not change the queued frames. */
    function Call(c: SinkCall): Sink {
      this.(log := log + [c])
    }

    /** `clearBuffers()`. */
    function ClearBuffers(): Sink {
      this.(queued := [], log := log + [Clear])
    }
  }

  /** The number of frames the sink can still take. */
  function Space(s: Sink): nat {
    if |s.queued| < s.capacity then s.capacity - |s.queued| else 0
  }

  function Min(a: nat, b: nat): nat {
    if a < b then a else b
  }

  /** Feeding the sink (CinderFFmpeg.cpp, lines 50-56): the decoder's next
      audio frames move one at a time, in order, to the end of the sink's
      queue, until the sink is full or the decoder has none ready. */
  function Drain(d: Decoder, s: Sink): (r: (Decoder, Sink))
    ensures r.0 == d.(audio := r.0.audio)
    ensures r.1 == s.(queued := r.1.queued)
    ensures |s.queued| <= |r.1.queued| && r.1.queued[..|s.queued|] == s.queued
    ensures d.audio == r.1.queued[|s.queued|..] + r.0.audio
    ensures !r.1.HasBufferSpace() || r.0.audio == []
    ensures s.HasBufferSpace() ==> |r.1.queued| <= s.capacity
    ensures !s.HasBufferSpace() ==> r == (d, s)
  {
    var k := Min(Space(s), |d.audio|);
    assert d.audio == d.audio[..k] + d.audio[k..];
    assert k == 0 ==> d.audio[k..] == d.audio && s.queued + d.audio[..k] == s.queued;
    (d.(audio := d.audio[k..]), s.(queued := s.queued + d.audio[..k]))
  }

  /** The feeding loop of `update`, as the source runs it. */
  method DrainAudio(d0: Decoder, s0: Sink) returns (d: Decoder, s: Sink)
    ensures (d, s) == Drain(d0, s0)
  {
    d, s := d0, s0;
    ghost var n: nat := 0;
    while s.HasBufferSpace()
      invariant n <= |d0.audio| && n <= Space(s0)
      invariant d == d0.(audio := d0.audio[n..])
      invariant s == s0.(queued := s0.queued + d0.audio[..n])
      decreases s.capacity - |s.queued|
    {
      if d.audio != [] {
        assert d0.audio[..n + 1] == d0.audio[..n] + [d.audio[0]];
        s := s.Queue(d.audio[0]);
        d := d.DecodeAudio();
        n := n + 1;
      } else {
        break;
      }
    }
  }

  /** Without a sink but with an audio track (lines 63-67): every audio frame
      the decoder has ready is decoded and thrown away. */
  method DiscardAudio(d0: Decoder) returns (d: Decoder)
    ensures d == d0.(audio := [])
  {
    d := d0;
    while d.audio != []
      invariant d == d0.(audio := d.audio)
      decreases |d.audio|
    {
      d := d.DecodeAudio();
    }
  }
}
