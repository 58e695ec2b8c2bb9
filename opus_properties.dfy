/** What the decoder promises across calls and for each call: the lifecycle of
    the handle, the order of the checks, what reaches the engine, and how the
    engine's answers are mapped. */
module GoOpusProperties {
  import opened OpusEngine
  import opened GoOpus

  /** One call a client makes on a decoder. The output slice of a decode
      operation is given by its length and capacity; its contents are not
      needed here. */
  datatype Op =
    | InitOp(sampleRate: int, channels: int)
    | DecodeOp(format: Format, variant: Variant, data: seq<Byte>, pcmLen: nat, pcmCap: nat)
    | LastPacketDurationOp

  /** The new state and the error (if any) of one call. */
  function Step(e: Engine, s: DecoderState, op: Op): (DecoderState, Option<Error>)
    requires Consistent(e, s)
  {
    match op
    case InitOp(rate, ch) => InitStep(e, s, rate, ch)
    case DecodeOp(f, v, data, pcmLen, pcmCap) =>
      var (s', r) := DecodeStep(e, s, f, v, data, pcmLen, pcmCap);
      (s', StatusReply(r))
    case LastPacketDurationOp => (s, DurationReply(e.lastPacketDuration(s.calls)).1)
  }

  /** Every call keeps the decoder consistent. */
  lemma StepKeepsConsistent(e: Engine, s: DecoderState, op: Op)
    requires Consistent(e, s)
    ensures Consistent(e, Step(e, s, op).0)
  {
  }

  /** The state after a sequence of calls, and the error of each call. */
  function Run(e: Engine, s: DecoderState, ops: seq<Op>): (r: (DecoderState, seq<Option<Error>>))
    requires Consistent(e, s)
    ensures Consistent(e, r.0)
    ensures |r.1| == |ops|
    decreases |ops|
  {
    if ops == [] then (s, [])
    else
      StepKeepsConsistent(e, s, ops[0]);
      var (s1, err) := Step(e, s, ops[0]);
      var (s2, errs) := Run(e, s1, ops[1..]);
      (s2, [err] + errs)
  }

  // ---------------------------------------------------------------------------
  // Init

  /** Init on a decoder whose handle is set fails with AlreadyInitialized and
      changes nothing. */
  lemma InitRejectsSecondInit(e: Engine, s: DecoderState, sampleRate: int, channels: int)
    requires s.initialized
    ensures InitStep(e, s, sampleRate, channels) == (s, Some(AlreadyInitialized))
  {
  }

  /** Init with a channel count other than 1 or 2 fails with
      InvalidChannelCount and leaves the decoder unset: nothing is allocated and
      the engine is not called. */
  lemma InitRejectsChannelCount(e: Engine, s: DecoderState, sampleRate: int, channels: int)
    requires Consistent(e, s) && !s.initialized
    requires channels != 1 && channels != 2
    ensures InitStep(e, s, sampleRate, channels) == (Unset, Some(InvalidChannelCount))
  {
  }

  /** Past its checks, Init records the rate and channel count, allocates
      exactly the engine's size for that channel count and sets the handle
      whatever the engine's init answers; so the decoder is initialised even
      when the engine fails, and a further Init is rejected. */
  lemma InitCommitsBeforeEngine(e: Engine, s: DecoderState, sampleRate: int, channels: int, rate2: int, channels2: int)
    requires !s.initialized
    requires channels == 1 || channels == 2
    ensures var (s', err) := InitStep(e, s, sampleRate, channels);
      && s'.initialized && s'.sampleRate == sampleRate && s'.channels == channels
      && s'.memSize == e.getSize(channels)
      && s'.calls == [InitCall(ToInt32(sampleRate), channels)]
      && (err == None <==> e.init(ToInt32(sampleRate), channels) == 0)
      && (err != None ==> err == Some(EngineError(e.init(ToInt32(sampleRate), channels))))
      && InitStep(e, s', rate2, channels2).1 == Some(AlreadyInitialized)
  {
  }

  /** NewDecoder returns a decoder exactly when the channel count is 1 or 2
      and the engine's init reports success. */
  lemma NewDecoderSucceedsIff(e: Engine, sampleRate: int, channels: int)
    ensures InitStep(e, Unset, sampleRate, channels).1 == None <==>
      (channels == 1 || channels == 2) && e.init(ToInt32(sampleRate), channels) == 0
    ensures channels != 1 && channels != 2 ==>
      InitStep(e, Unset, sampleRate, channels).1 == Some(InvalidChannelCount)
  {
  }

  // ---------------------------------------------------------------------------
  // Decode operations

  /** A decode operation that fails a check does not reach the engine: the
      state is unchanged, nothing is stored in the output buffer, and the error
      is the check's. */
  lemma RejectedDecodeTouchesNothing(e: Engine, s: DecoderState, f: Format, v: Variant,
                                     data: seq<Byte>, pcmLen: nat, pcmCap: nat, buf: seq<Int16>)
    requires Consistent(e, s)
    requires Validate(s, v, |data|, pcmLen, pcmCap).Some?
    ensures DecodeStep(e, s, f, v, data, pcmLen, pcmCap) ==
      (s, Err(Validate(s, v, |data|, pcmLen, pcmCap).value))
    ensures Samples(e.decode, s, v, data, pcmLen, pcmCap) == []
    ensures Samples(e.decodeFloat, s, v, data, pcmLen, pcmCap) == []
    ensures Overlay(buf, Samples(e.decode, s, v, data, pcmLen, pcmCap)) == buf
  {
  }

  /** A decode operation that passes its checks makes exactly one engine call,
      through the entry point of its sample format, with the packet (the null
      packet of length 0 for concealment), the frame size capacity / channels
      and the FEC flag set only for the FEC variants; a negative answer becomes
      EngineError, any other answer is the result. */
  lemma AcceptedDecodeCallsEngine(e: Engine, s: DecoderState, f: Format, v: Variant,
                                  data: seq<Byte>, pcmLen: nat, pcmCap: nat)
    requires Consistent(e, s)
    requires Validate(s, v, |data|, pcmLen, pcmCap).None?
    ensures var (s', r) := DecodeStep(e, s, f, v, data, pcmLen, pcmCap);
      var request := s'.calls[|s.calls|].request;
      && s' == s.(calls := s.calls + [DecodeCall(f, request)])
      && request.frameSize == ToInt32(pcmCap / s.channels)
      && (request.fec <==> v == Fec)
      && (v == Plc ==> request.packet == NullPacket)
      && (v != Plc ==> request.packet == Packet(data, ToInt32(|data|)))
      && var n := EngineReturn(e, f, s.calls, request);
      && (n < 0 ==> r == Err(EngineError(n)))
      && (n >= 0 ==> r == Ok(n))
  {
  }

  /** The count Decode and DecodeFloat32 return is the engine's answer when it
      is not negative, and 0 with an error otherwise; the FEC and PLC variants
      return only whether there was an error. */
  lemma ReplyMapping(r: Result<nat>)
    ensures CountReply(r).1 == StatusReply(r)
    ensures r.Ok? ==> CountReply(r) == (r.value, None)
    ensures r.Err? ==> CountReply(r) == (0, Some(r.error))
  {
  }

  /** Concealment never asks for a packet, so it never reports EmptyInput. */
  lemma PlcSkipsInputCheck(e: Engine, s: DecoderState, f: Format, data: seq<Byte>, pcmLen: nat, pcmCap: nat)
    requires Consistent(e, s)
    ensures DecodeStep(e, s, f, Plc, data, pcmLen, pcmCap).1 != Err(EmptyInput)
    ensures Validate(s, Plc, |data|, pcmLen, pcmCap) == Validate(s, Plc, 0, pcmLen, pcmCap)
  {
  }

  // ---------------------------------------------------------------------------
  // Sequences of calls

  /** Once the handle is set it stays set: no later call changes the sample
      rate, the channel count or the state block, and the engine's history
      only grows. */
  lemma {:induction false} InitializedStaysFixed(e: Engine, s: DecoderState, ops: seq<Op>)
    requires Consistent(e, s) && s.initialized
    ensures var s' := Run(e, s, ops).0;
      && s'.initialized
      && s'.sampleRate == s.sampleRate && s'.channels == s.channels && s'.memSize == s.memSize
      && s.calls <= s'.calls
    decreases |ops|
  {
    if ops != [] {
      StepKeepsConsistent(e, s, ops[0]);
      var s1 := Step(e, s, ops[0]).0;
      assert s1.initialized && s1.sampleRate == s.sampleRate && s1.channels == s.channels
        && s1.memSize == s.memSize && s.calls <= s1.calls;
      InitializedStaysFixed(e, s1, ops[1..]);
    }
  }

  /** On a decoder whose handle is set, every Init in any sequence of calls is
      rejected with AlreadyInitialized. */
  lemma {:induction false} EveryLaterInitRejected(e: Engine, s: DecoderState, ops: seq<Op>)
    requires Consistent(e, s) && s.initialized
    ensures forall i :: 0 <= i < |ops| && ops[i].InitOp? ==> Run(e, s, ops).1[i] == Some(AlreadyInitialized)
    decreases |ops|
  {
    if ops != [] {
      StepKeepsConsistent(e, s, ops[0]);
      var s1 := Step(e, s, ops[0]).0;
      EveryLaterInitRejected(e, s1, ops[1..]);
      assert s1.initialized;
      var errs := Run(e, s, ops).1;
      assert errs == [Step(e, s, ops[0]).1] + Run(e, s1, ops[1..]).1;
      forall i | 0 <= i < |ops| && ops[i].InitOp?
        ensures errs[i] == Some(AlreadyInitialized)
      {
        if i > 0 {
          assert ops[1..][i - 1] == ops[i];
        }
      }
    }
  }

  /** A decoder that is never initialised stays the zero value, never reaches
      the engine's decode, and answers every decode operation with
      NotInitialized. */
  lemma {:induction false} UninitializedRejectsDecodes(e: Engine, ops: seq<Op>)
    requires forall i :: 0 <= i < |ops| ==> !ops[i].InitOp?
    ensures Run(e, Unset, ops).0 == Unset
    ensures forall i :: 0 <= i < |ops| && ops[i].DecodeOp? ==> Run(e, Unset, ops).1[i] == Some(NotInitialized)
    decreases |ops|
  {
    if ops != [] {
      assert Step(e, Unset, ops[0]).0 == Unset;
      forall i | 0 <= i < |ops[1..]| ensures !ops[1..][i].InitOp? {
        assert ops[1..][i] == ops[i + 1];
      }
      UninitializedRejectsDecodes(e, ops[1..]);
      var errs := Run(e, Unset, ops).1;
      assert errs == [Step(e, Unset, ops[0]).1] + Run(e, Unset, ops[1..]).1;
      forall i | 0 <= i < |ops| && ops[i].DecodeOp?
        ensures errs[i] == Some(NotInitialized)
      {
        if i > 0 {
          assert ops[1..][i - 1] == ops[i];
        }
      }
    }
  }

  /** The engine's history grows by one call for each decode operation that
      passes its checks, and by nothing else, once the decoder is set up. */
  lemma {:induction false} HistoryCountsAcceptedDecodes(e: Engine, s: DecoderState, ops: seq<Op>)
    requires Consistent(e, s) && s.initialized
    ensures |Run(e, s, ops).0.calls| == |s.calls| + Accepted(e, s, ops)
    decreases |ops|
  {
    if ops != [] {
      StepKeepsConsistent(e, s, ops[0]);
      var s1 := Step(e, s, ops[0]).0;
      assert s1.initialized;
      HistoryCountsAcceptedDecodes(e, s1, ops[1..]);
    }
  }

  /** The number of decode operations in `ops` that pass their checks when run
      from `s`. */
  function Accepted(e: Engine, s: DecoderState, ops: seq<Op>): nat
    requires Consistent(e, s)
    decreases |ops|
  {
    if ops == [] then 0
    else
      StepKeepsConsistent(e, s, ops[0]);
      var passes := match ops[0]
        case DecodeOp(_, v, data, pcmLen, pcmCap) => Validate(s, v, |data|, pcmLen, pcmCap).None?
        case _ => false;
      (if passes then 1 else 0) + Accepted(e, Step(e, s, ops[0]).0, ops[1..])
  }
}
