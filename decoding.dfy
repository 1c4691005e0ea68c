/**
 The movie decoder as `MovieGl` sees it: an abstract frame source. What the
 decoder's packet-reader thread has made ready by the time of a call is the
 sequence of pending video frames and the sequence of pending audio frames;
 `decodeVideoFrame` and `decodeAudioFrame` hand out the head of the
 respective sequence, or fail when it is empty. Lifecycle calls
 (start, stop, pause, resume, seek, loop) are recorded in order in `log`.
 */
module Decoding {

  /** One decoded planar 4:2:0 picture: the decoder's video clock once it has
      been decoded, its logical size and the line sizes of its three planes. */
  datatype VideoFrame = VideoFrame(
    clock: real,
    width: nat,
    height: nat,
    yLineSize: nat,
    uLineSize: nat,
    vLineSize: nat)

  datatype AudioFrame = AudioFrame(pts: real)

  /** The control calls `MovieGl` makes on its decoder. */
  datatype DecoderCall = Start | Stop | Pause | Resume | Seek(seconds: real) | Loop(on: bool)

  datatype Decoder = Decoder(
    initialized: bool,
    hasAudio: bool,
    videoClock: real,
    fps: real,
    video: seq<VideoFrame>,
    audio: seq<AudioFrame>,
    frameWidth: nat,
    frameHeight: nat,
    duration: real,
    log: seq<DecoderCall>)
  {
    /** A successful `decodeVideoFrame`: the next frame is taken and the video
        clock becomes that frame's clock. */
    function DecodeVideo(): Decoder
      requires video != []
    {
      this.(video := video[1..], videoClock := video[0].clock)
    }

    /** A successful `decodeAudioFrame`: the next audio frame is taken. */
    function DecodeAudio(): Decoder
      requires audio != []
    {
      this.(audio := audio[1..])
    }

    /** Records a control call; nothing else about the decoder changes. */
    function Call(c: DecoderCall): Decoder
    {
      this.(log := log + [c])
    }
  }
}
