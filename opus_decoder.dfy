/** The Go wrapper `opusDecoder` of opus.go: a decoder that owns one libopus
    decoder state, checks every call before handing it to the engine, and
    turns the engine's status codes into errors.

    The first half states what each operation does as functions of the
    decoder's state (`DecoderState`); the class `OpusDecoder` then implements
    the operations on mutable fields and an output array, and each method is
    proved to do what those functions say. */
module GoOpus {
  import opened OpusEngine

  datatype Option<T> = None | Some(value: T)

  datatype Result<T> = Ok(value: T) | Err(error: Error)

  /** The errors the wrapper reports. Their message texts are not modelled. */
  datatype Error =
    | NotInitialized
    | AlreadyInitialized
    | InvalidChannelCount
    | EmptyInput
    | EmptyOutput
    | MisalignedBuffer
    | EngineError(code: int)

  /** Plain decode, decode with forward error correction, or packet loss
      concealment. Each exists for int16 and for float32 samples. */
  datatype Variant = Plain | Fec | Plc

  /** The fields of `opusDecoder`: whether the handle `p` is set, the sample
      rate and channel count it was set up for, the size of `mem`, and the
      engine state kept in `mem`, as the calls the engine has received. */
  datatype DecoderState = DecoderState(
    initialized: bool,
    sampleRate: int,
    channels: int,
    memSize: nat,
    calls: seq<Call>)

  /** The zero value of `opusDecoder`. */
  const Unset := DecoderState(false, 0, 0, 0, [])

  /** What holds of every decoder: an uninitialised one is the zero value; an
      initialised one has one or two channels, a state block of the size the
      engine asked for, and an engine history that starts with its init call. */
  ghost predicate Consistent(e: Engine, s: DecoderState)
  {
    if s.initialized then
      && (s.channels == 1 || s.channels == 2)
      && s.memSize == e.getSize(s.channels)
      && |s.calls| > 0
      && s.calls[0] == InitCall(ToInt32(s.sampleRate), s.channels)
    else
      s == Unset
  }

  // ---------------------------------------------------------------------------
  // Init

  /** `Init`: refuse a second initialisation and a channel count other than 1
      or 2; otherwise record the parameters, allocate the state block, set the
      handle, and only then run the engine's init, whose failure is reported
      but leaves the handle set. */
  function InitStep(e: Engine, s: DecoderState, sampleRate: int, channels: int): (DecoderState, Option<Error>)
  {
    if s.initialized then
      (s, Some(AlreadyInitialized))
    else if channels != 1 && channels != 2 then
      (s, Some(InvalidChannelCount))
    else
      var rate := ToInt32(sampleRate);
      var s' := DecoderState(true, sampleRate, channels, e.getSize(channels), [InitCall(rate, channels)]);
      var errno := e.init(rate, channels);
      (s', if errno != 0 then Some(EngineError(errno)) else None)
  }

  // ---------------------------------------------------------------------------
  // The six decode operations

  /** The checks every decode operation makes before it calls the engine, in
      order: handle set, packet non-empty (not for concealment), output
      non-empty, output capacity a multiple of the channel count. The first
      check that fails decides the error. */
  function Validate(s: DecoderState, v: Variant, dataLen: nat, pcmLen: nat, pcmCap: nat): (r: Option<Error>)
    requires s.initialized ==> s.channels > 0
    ensures r == Some(NotInitialized) <==> !s.initialized
    ensures r == Some(EmptyInput) <==> s.initialized && v != Plc && dataLen == 0
    ensures r == Some(EmptyOutput) <==> s.initialized && (v == Plc || dataLen > 0) && pcmLen == 0
    ensures r == Some(MisalignedBuffer) <==>
      s.initialized && (v == Plc || dataLen > 0) && pcmLen > 0 && pcmCap % s.channels != 0
    ensures r == None <==>
      s.initialized && (v == Plc || dataLen > 0) && pcmLen > 0 && pcmCap % s.channels == 0
    ensures r.Some? ==> !r.value.EngineError?
  {
    if !s.initialized then Some(NotInitialized)
    else if v != Plc && dataLen == 0 then Some(EmptyInput)
    else if pcmLen == 0 then Some(EmptyOutput)
    else if pcmCap % s.channels != 0 then Some(MisalignedBuffer)
    else None
  }

  /** The arguments a decode operation passes to the engine: the packet (the
      null packet for concealment), the frame size per channel taken from the
      output buffer's capacity, and the FEC flag. */
  function EngineRequest(v: Variant, data: seq<Byte>, pcmCap: nat, channels: int): (r: Request)
    requires channels > 0
    ensures r.packet == NullPacket <==> v == Plc
    ensures r.packet.Packet? ==> r.packet.data == data && r.packet.len == ToInt32(|data|)
    ensures r.fec <==> v == Fec
    ensures r.frameSize <= pcmCap / channels
    ensures pcmCap / channels < 0x8000_0000 ==> r.frameSize == pcmCap / channels
  {
    Request(
      if v == Plc then NullPacket else Packet(data, ToInt32(|data|)),
      ToInt32(pcmCap / channels),
      v == Fec)
  }

  /** What the engine entry point for `f` returns for `request`, given the
      history `h`. */
  function EngineReturn(e: Engine, f: Format, h: seq<Call>, request: Request): int
  {
    match f
    case Int16Pcm => e.decode(h, request).ret
    case Float32Pcm => e.decodeFloat(h, request).ret
  }

  /** A negative engine result is an error carrying it; any other is the
      number of samples decoded per channel. */
  function FromEngine(n: int): (r: Result<nat>)
    ensures r.Err? <==> n < 0
    ensures r.Err? ==> r.error == EngineError(n)
    ensures r.Ok? ==> r.value == n
  {
    if n < 0 then Err(EngineError(n)) else Ok(n)
  }

  /** One decode operation on the decoder's state: the checks, then one engine
      call that is appended to the engine's history. */
  function DecodeStep(e: Engine, s: DecoderState, f: Format, v: Variant,
                      data: seq<Byte>, pcmLen: nat, pcmCap: nat): (DecoderState, Result<nat>)
    requires s.initialized ==> s.channels > 0
  {
    match Validate(s, v, |data|, pcmLen, pcmCap)
    case Some(err) => (s, Err(err))
    case None =>
      var request := EngineRequest(v, data, pcmCap, s.channels);
      (s.(calls := s.calls + [DecodeCall(f, request)]), FromEngine(EngineReturn(e, f, s.calls, request)))
  }

  /** The samples a decode operation stores through `decode` (the engine entry
      point it calls): none when a check fails. */
  function Samples<S>(decode: (seq<Call>, Request) -> Output<S>, s: DecoderState, v: Variant,
                      data: seq<Byte>, pcmLen: nat, pcmCap: nat): seq<S>
    requires s.initialized ==> s.channels > 0
  {
    if Validate(s, v, |data|, pcmLen, pcmCap).Some? then []
    else decode(s.calls, EngineRequest(v, data, pcmCap, s.channels)).pcm
  }

  /** The engine never writes past the output buffer's capacity: the frame
      size it is given is the capacity divided by the channel count. */
  lemma SamplesFitCapacity(e: Engine, s: DecoderState, v: Variant, data: seq<Byte>, pcmLen: nat, pcmCap: nat)
    requires Honours(e) && Consistent(e, s)
    ensures |Samples(e.decode, s, v, data, pcmLen, pcmCap)| <= pcmCap
    ensures |Samples(e.decodeFloat, s, v, data, pcmLen, pcmCap)| <= pcmCap
  {
  }

  /** A decode operation that succeeds reports a count that is exactly the
      number of samples per channel it stored, and they fit the capacity. */
  lemma CountMatchesSamples(e: Engine, s: DecoderState, v: Variant, data: seq<Byte>, pcmLen: nat, pcmCap: nat)
    requires Honours(e) && Consistent(e, s)
    ensures var r := DecodeStep(e, s, Int16Pcm, v, data, pcmLen, pcmCap).1;
      r.Ok? ==> |Samples(e.decode, s, v, data, pcmLen, pcmCap)| == r.value * s.channels <= pcmCap
    ensures var r := DecodeStep(e, s, Float32Pcm, v, data, pcmLen, pcmCap).1;
      r.Ok? ==> |Samples(e.decodeFloat, s, v, data, pcmLen, pcmCap)| == r.value * s.channels <= pcmCap
  {
  }

  /** The output buffer after the engine stored `w` from its start: the first
      |w| slots hold `w`, every other slot is unchanged. */
  function Overlay<S>(buf: seq<S>, w: seq<S>): (r: seq<S>)
    requires |w| <= |buf|
    ensures |r| == |buf|
    ensures forall i :: 0 <= i < |w| ==> r[i] == w[i]
    ensures forall i :: |w| <= i < |buf| ==> r[i] == buf[i]
  {
    w + buf[|w|..]
  }

  /** The (count, error) pair `Decode` and `DecodeFloat32` return. */
  function CountReply(r: Result<nat>): (int, Option<Error>)
  {
    match r
    case Ok(n) => (n, None)
    case Err(err) => (0, Some(err))
  }

  /** The error the FEC and PLC operations return: nil on success, no count. */
  function StatusReply(r: Result<nat>): Option<Error>
  {
    match r
    case Ok(_) => None
    case Err(err) => Some(err)
  }

  // ---------------------------------------------------------------------------
  // LastPacketDuration

  /** `LastPacketDuration`: the engine's answer (status, samples) becomes the
      sample count when the status is OPUS_OK, and otherwise 0 and an error. */
  function DurationReply(answer: (int, int)): (r: (int, Option<Error>))
    ensures r.1 == None <==> answer.0 == OPUS_OK
    ensures r.1 == None ==> r.0 == answer.1
    ensures r.1 != None ==> r.0 == 0 && r.1 == Some(EngineError(answer.0))
  {
    if answer.0 != OPUS_OK then (0, Some(EngineError(answer.0))) else (answer.1, None)
  }

  // ---------------------------------------------------------------------------
  // The decoder object

  class OpusDecoder {
    /** The libopus build the decoder calls. */
    const engine: Engine
    /** `p != nil` */
    var initialized: bool
    /** `len(mem)` */
    var memSize: nat
    var sampleRate: int
    var channels: int
    /** The engine state that `p` points at, as the calls it has received. */
    var calls: seq<Call>

    function State(): DecoderState
      reads this
    {
      DecoderState(initialized, sampleRate, channels, memSize, calls)
    }

    ghost predicate Valid()
      reads this
    {
      Honours(engine) && Consistent(engine, State())
    }

    /** `var dec opusDecoder`: the zero value, not yet initialised. */
    constructor (engine: Engine)
      requires Honours(engine)
      ensures Valid() && this.engine == engine && State() == Unset
    {
      this.engine := engine;
      initialized, memSize, sampleRate, channels, calls := false, 0, 0, 0, [];
    }

    method Init(sampleRate: int, channels: int) returns (err: Option<Error>)
      requires Valid()
      modifies this
      ensures Valid()
      ensures (State(), err) == InitStep(engine, old(State()), sampleRate, channels)
    {
      if initialized {
        return Some(AlreadyInitialized);
      }
      if channels != 1 && channels != 2 {
        return Some(InvalidChannelCount);
      }
      var size := engine.getSize(channels);
      this.sampleRate := sampleRate;
      this.channels := channels;
      memSize := size;
      var rate := ToInt32(sampleRate);
      initialized := true;
      calls := [InitCall(rate, channels)];
      var errno := engine.init(rate, channels);
      if errno != 0 {
        return Some(EngineError(errno));
      }
      return None;
    }

    /** One engine call: the engine state records it, the engine stores its
        samples at the start of `pcm`, and its result is returned. */
    method CallEngine<S>(decode: (seq<Call>, Request) -> Output<S>, f: Format, request: Request, pcm: array<S>)
      returns (ret: int)
      requires Valid() && initialized
      requires |decode(calls, request).pcm| <= pcm.Length
      modifies this`calls, pcm
      ensures Valid()
      ensures calls == old(calls) + [DecodeCall(f, request)]
      ensures ret == decode(old(calls), request).ret
      ensures pcm[..] == Overlay(old(pcm[..]), decode(old(calls), request).pcm)
    {
      var out := decode(calls, request);
      calls := calls + [DecodeCall(f, request)];
      forall i | 0 <= i < |out.pcm| {
        pcm[i] := out.pcm[i];
      }
      ret := out.ret;
    }

    /** Decodes `data` into the int16 slice whose backing array is `pcm`,
        whose length is `pcmLen` and whose capacity is `pcm.Length`. */
    method Decode(data: seq<Byte>, pcm: array<Int16>, pcmLen: nat) returns (n: int, err: Option<Error>)
      requires Valid() && pcmLen <= pcm.Length
      modifies this`calls, pcm
      ensures Valid()
      ensures var (s, r) := DecodeStep(engine, old(State()), Int16Pcm, Plain, data, pcmLen, pcm.Length);
              State() == s && (n, err) == CountReply(r)
      ensures var w := Samples(engine.decode, old(State()), Plain, data, pcmLen, pcm.Length);
              |w| <= pcm.Length && pcm[..] == Overlay(old(pcm[..]), w)
      ensures err == None ==>
              var w := Samples(engine.decode, old(State()), Plain, data, pcmLen, pcm.Length);
              0 <= n * channels <= pcm.Length && pcm[..n * channels] == w
    {
      SamplesFitCapacity(engine, State(), Plain, data, pcmLen, pcm.Length);
      CountMatchesSamples(engine, State(), Plain, data, pcmLen, pcm.Length);
      if !initialized {
        return 0, Some(NotInitialized);
      }
      if |data| == 0 {
        return 0, Some(EmptyInput);
      }
      if pcmLen == 0 {
        return 0, Some(EmptyOutput);
      }
      if pcm.Length % channels != 0 {
        return 0, Some(MisalignedBuffer);
      }
      var request := Request(Packet(data, ToInt32(|data|)), ToInt32(pcm.Length / channels), false);
      var ret := CallEngine(engine.decode, Int16Pcm, request, pcm);
      if ret < 0 {
        return 0, Some(EngineError(ret));
      }
      return ret, None;
    }

    /** Decodes `data` into a float32 slice. */
    method DecodeFloat32(data: seq<Byte>, pcm: array<Float32>, pcmLen: nat) returns (n: int, err: Option<Error>)
      requires Valid() && pcmLen <= pcm.Length
      modifies this`calls, pcm
      ensures Valid()
      ensures var (s, r) := DecodeStep(engine, old(State()), Float32Pcm, Plain, data, pcmLen, pcm.Length);
              State() == s && (n, err) == CountReply(r)
      ensures var w := Samples(engine.decodeFloat, old(State()), Plain, data, pcmLen, pcm.Length);
              |w| <= pcm.Length && pcm[..] == Overlay(old(pcm[..]), w)
      ensures err == None ==>
              var w := Samples(engine.decodeFloat, old(State()), Plain, data, pcmLen, pcm.Length);
              0 <= n * channels <= pcm.Length && pcm[..n * channels] == w
    {
      SamplesFitCapacity(engine, State(), Plain, data, pcmLen, pcm.Length);
      CountMatchesSamples(engine, State(), Plain, data, pcmLen, pcm.Length);
      if !initialized {
        return 0, Some(NotInitialized);
      }
      if |data| == 0 {
        return 0, Some(EmptyInput);
      }
      if pcmLen == 0 {
        return 0, Some(EmptyOutput);
      }
      if pcm.Length % channels != 0 {
        return 0, Some(MisalignedBuffer);
      }
      var request := Request(Packet(data, ToInt32(|data|)), ToInt32(pcm.Length / channels), false);
      var ret := CallEngine(engine.decodeFloat, Float32Pcm, request, pcm);
      if ret < 0 {
        return 0, Some(EngineError(ret));
      }
      return ret, None;
    }

    /** Decodes the packet that follows a lost one with forward error
        correction into an int16 slice; no sample count is returned. */
    method DecodeFEC(data: seq<Byte>, pcm: array<Int16>, pcmLen: nat) returns (err: Option<Error>)
      requires Valid() && pcmLen <= pcm.Length
      modifies this`calls, pcm
      ensures Valid()
      ensures var (s, r) := DecodeStep(engine, old(State()), Int16Pcm, Fec, data, pcmLen, pcm.Length);
              State() == s && err == StatusReply(r)
      ensures var w := Samples(engine.decode, old(State()), Fec, data, pcmLen, pcm.Length);
              |w| <= pcm.Length && pcm[..] == Overlay(old(pcm[..]), w)
    {
      SamplesFitCapacity(engine, State(), Fec, data, pcmLen, pcm.Length);
      if !initialized {
        return Some(NotInitialized);
      }
      if |data| == 0 {
        return Some(EmptyInput);
      }
      if pcmLen == 0 {
        return Some(EmptyOutput);
      }
      if pcm.Length % channels != 0 {
        return Some(MisalignedBuffer);
      }
      var request := Request(Packet(data, ToInt32(|data|)), ToInt32(pcm.Length / channels), true);
      var ret := CallEngine(engine.decode, Int16Pcm, request, pcm);
      if ret < 0 {
        return Some(EngineError(ret));
      }
      return None;
    }

    /** Forward error correction into a float32 slice. */
    method DecodeFECFloat32(data: seq<Byte>, pcm: array<Float32>, pcmLen: nat) returns (err: Option<Error>)
      requires Valid() && pcmLen <= pcm.Length
      modifies this`calls, pcm
      ensures Valid()
      ensures var (s, r) := DecodeStep(engine, old(State()), Float32Pcm, Fec, data, pcmLen, pcm.Length);
              State() == s && err == StatusReply(r)
      ensures var w := Samples(engine.decodeFloat, old(State()), Fec, data, pcmLen, pcm.Length);
              |w| <= pcm.Length && pcm[..] == Overlay(old(pcm[..]), w)
    {
      SamplesFitCapacity(engine, State(), Fec, data, pcmLen, pcm.Length);
      if !initialized {
        return Some(NotInitialized);
      }
      if |data| == 0 {
        return Some(EmptyInput);
      }
      if pcmLen == 0 {
        return Some(EmptyOutput);
      }
      if pcm.Length % channels != 0 {
        return Some(MisalignedBuffer);
      }
      var request := Request(Packet(data, ToInt32(|data|)), ToInt32(pcm.Length / channels), true);
      var ret := CallEngine(engine.decodeFloat, Float32Pcm, request, pcm);
      if ret < 0 {
        return Some(EngineError(ret));
      }
      return None;
    }

    /** Conceals a lost packet into an int16 slice from the decoder's history
        alone: the engine gets the null packet of length 0. */
    method DecodePLC(pcm: array<Int16>, pcmLen: nat) returns (err: Option<Error>)
      requires Valid() && pcmLen <= pcm.Length
      modifies this`calls, pcm
      ensures Valid()
      ensures var (s, r) := DecodeStep(engine, old(State()), Int16Pcm, Plc, [], pcmLen, pcm.Length);
              State() == s && err == StatusReply(r)
      ensures var w := Samples(engine.decode, old(State()), Plc, [], pcmLen, pcm.Length);
              |w| <= pcm.Length && pcm[..] == Overlay(old(pcm[..]), w)
    {
      SamplesFitCapacity(engine, State(), Plc, [], pcmLen, pcm.Length);
      if !initialized {
        return Some(NotInitialized);
      }
      if pcmLen == 0 {
        return Some(EmptyOutput);
      }
      if pcm.Length % channels != 0 {
        return Some(MisalignedBuffer);
      }
      var request := Request(NullPacket, ToInt32(pcm.Length / channels), false);
      var ret := CallEngine(engine.decode, Int16Pcm, request, pcm);
      if ret < 0 {
        return Some(EngineError(ret));
      }
      return None;
    }

    /** Loss concealment into a float32 slice. */
    method DecodePLCFloat32(pcm: array<Float32>, pcmLen: nat) returns (err: Option<Error>)
      requires Valid() && pcmLen <= pcm.Length
      modifies this`calls, pcm
      ensures Valid()
      ensures var (s, r) := DecodeStep(engine, old(State()), Float32Pcm, Plc, [], pcmLen, pcm.Length);
              State() == s && err == StatusReply(r)
      ensures var w := Samples(engine.decodeFloat, old(State()), Plc, [], pcmLen, pcm.Length);
              |w| <= pcm.Length && pcm[..] == Overlay(old(pcm[..]), w)
    {
      SamplesFitCapacity(engine, State(), Plc, [], pcmLen, pcm.Length);
      if !initialized {
        return Some(NotInitialized);
      }
      if pcmLen == 0 {
        return Some(EmptyOutput);
      }
      if pcm.Length % channels != 0 {
        return Some(MisalignedBuffer);
      }
      var request := Request(NullPacket, ToInt32(pcm.Length / channels), false);
      var ret := CallEngine(engine.decodeFloat, Float32Pcm, request, pcm);
      if ret < 0 {
        return Some(EngineError(ret));
      }
      return None;
    }

    /** The duration in samples per channel of the last packet decoded or
        concealed. There is no check of the handle: on a decoder that was
        never initialised the engine is asked about an empty history. */
    method LastPacketDuration() returns (samples: int, err: Option<Error>)
      ensures (samples, err) == DurationReply(engine.lastPacketDuration(calls))
    {
      var (res, n) := engine.lastPacketDuration(calls);
      if res != OPUS_OK {
        return 0, Some(EngineError(res));
      }
      return n, None;
    }
  }

  /** `NewDecoder`: a fresh zero-valued decoder that is initialised; it is
      returned only when `Init` reported no error. */
  method NewDecoder(engine: Engine, sampleRate: int, channels: int) returns (dec: OpusDecoder?, err: Option<Error>)
    requires Honours(engine)
    ensures err == InitStep(engine, Unset, sampleRate, channels).1
    ensures dec != null <==> err == None
    ensures dec != null ==>
      fresh(dec) && dec.Valid() && dec.engine == engine &&
      dec.State() == InitStep(engine, Unset, sampleRate, channels).0
  {
    var d := new OpusDecoder(engine);
    err := d.Init(sampleRate, channels);
    if err != None {
      return null, err;
    }
    return d, None;
  }
}
