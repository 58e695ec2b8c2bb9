/** The part of libopus (the Opus codec of RFC 6716) that the Go decoder calls:
    opus_decoder_get_size, opus_decoder_init, opus_decode, opus_decode_float and
    the OPUS_GET_LAST_PACKET_DURATION request of opus_decoder_ctl.

    The engine is opaque. Its decoder state, which lives in the byte block the
    Go side allocates, is represented by the sequence of calls the engine has
    received since it was initialised; every result of the engine is an
    arbitrary function of that history. Everything proved about the wrapper
    therefore holds for every engine that keeps the contract `Honours`. */
module OpusEngine {

  type Byte = bv8

  /** opus_int16, the sample type of opus_decode. */
  type Int16 = x: int | -0x8000 <= x < 0x8000

  /** A float sample of opus_decode_float, kept as its 32-bit pattern:
      nothing here does floating-point arithmetic. */
  type Float32 = bv32

  /** OPUS_OK */
  const OPUS_OK := 0

  /** The conversion of a Go `int` to C's 32-bit `int` or `opus_int32`
      (two's complement wrap-around). */
  function ToInt32(x: int): (r: int)
    ensures -0x8000_0000 <= r < 0x8000_0000
    ensures (x - r) % 0x1_0000_0000 == 0
    ensures -0x8000_0000 <= x < 0x8000_0000 ==> r == x
    ensures 0 <= x ==> r <= x
  {
    (x + 0x8000_0000) % 0x1_0000_0000 - 0x8000_0000
  }

  /** The packet arguments of opus_decode: a pointer with a length, or the
      null pointer with length 0 that asks for loss concealment. */
  datatype Packet = NullPacket | Packet(data: seq<Byte>, len: int)

  /** The arguments of one opus_decode / opus_decode_float call besides the
      decoder state and the output pointer. */
  datatype Request = Request(packet: Packet, frameSize: int, fec: bool)

  /** Which of the two decode entry points was called. */
  datatype Format = Int16Pcm | Float32Pcm

  /** One call that changes the engine's state. */
  datatype Call =
    | InitCall(sampleRate: int, channels: int)
    | DecodeCall(format: Format, request: Request)

  /** What a decode call returns (a sample count or a negative error code)
      and the samples it stores from the start of the output buffer. */
  datatype Output<S> = Output(ret: int, pcm: seq<S>)

  datatype Engine = Engine(
    getSize: int -> nat,
    init: (int, int) -> int,
    decode: (seq<Call>, Request) -> Output<Int16>,
    decodeFloat: (seq<Call>, Request) -> Output<Float32>,
    lastPacketDuration: seq<Call> -> (int, int))

  /** The most samples a decode call may store: frame_size samples for each
      channel, none for a frame size that is not positive. */
  function MaxWritten(frameSize: int, channels: int): nat
  {
    if frameSize <= 0 || channels <= 0 then 0 else frameSize * channels
  }

  /** The contract libopus keeps: a decoder state exists for one and for two
      channels, and a decode call on a decoder initialised for `channels`
      channels writes at most frame_size * channels samples; when it answers
      with a count n >= 0, it has written exactly n samples per channel. */
  ghost predicate Honours(e: Engine)
  {
    && e.getSize(1) > 0
    && e.getSize(2) > 0
    && (forall h: seq<Call>, r: Request | |h| > 0 && h[0].InitCall? ::
          Keeps(e.decode(h, r), r.frameSize, h[0].channels))
    && (forall h: seq<Call>, r: Request | |h| > 0 && h[0].InitCall? ::
          Keeps(e.decodeFloat(h, r), r.frameSize, h[0].channels))
  }

  /** One decode answer within the contract: no more samples than the frame
      holds, and a non-negative count that matches the samples written. */
  ghost predicate Keeps<S>(out: Output<S>, frameSize: int, channels: int)
  {
    && |out.pcm| <= MaxWritten(frameSize, channels)
    && (out.ret >= 0 ==> |out.pcm| == out.ret * channels)
  }
}
