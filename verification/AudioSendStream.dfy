/** The audio send stream as an object: fields updated step by step, a bitrate allocator and an audio state shared with
    other streams. A result of false stands for a check that fires. */
module AudioSendStreams {
  import opened Basics
  import opened RtpExtensions
  import opened AudioEncoders
  import opened SendStream
  import opened SendStreamInvariants
  import opened SendStreamCaches
  import opened AudioObjects
  import opened SendStreamRates
  import Shared = AudioState

  datatype ExtensionIds = ExtensionIds(
    audioLevel: int,
    absSendTime: int,
    absCaptureTime: int,
    transportSequenceNumber: int,
    mid: int,
    rid: int,
    repairedRid: int)

  /** What the allocator remembers of its observers. */
  class BitrateAllocator {
    var tracks: map<StreamId, AllocationConfig>

    constructor ()
      ensures tracks == map[]
    {
      tracks := map[];
    }

    method AddObserver(id: StreamId, config: AllocationConfig)
      modifies this
      ensures tracks == old(tracks)[id := config]
    {
      tracks := tracks[id := config];
    }

    method RemoveObserver(id: StreamId)
      modifies this
      ensures tracks == old(tracks) - {id}
    {
      tracks := tracks - {id};
    }
  }

  class RtpTransport {
    var pacesAudio: bool

    constructor ()
      ensures !pacesAudio
    {
      pacesAudio := false;
    }

    method AccountForAudioPacketsInPacedSender(account: bool)
      modifies this
      ensures pacesAudio == account
    {
      pacesAudio := account;
    }
  }

  class AudioSendStream {
    const id: StreamId
    const settings: Settings
    const audioState: AudioState
    const allocator: BitrateAllocator
    const rtpTransport: RtpTransport
    var config: Config
    var sending: bool
    var registeredWithAllocator: bool
    var transportOverheadPerPacketBytes: nat
    var overheadPerPacket: nat
    var frameLengthRange: Option<FrameRange>
    var bitrateRange: Option<RateRange>
    var encoderSampleRateHz: int
    var encoderNumChannels: nat
    var encoder: Option<Encoder>
    var partOfAllocation: bool

    ghost function Value(): Machine
      reads this, audioState, audioState.transport, allocator, rtpTransport
    {
      Machine(id,
              Stream(settings, config, sending, registeredWithAllocator, transportOverheadPerPacketBytes,
                     overheadPerPacket, frameLengthRange, bitrateRange, encoderSampleRateHz, encoderNumChannels,
                     encoder, partOfAllocation),
              audioState.Value(), allocator.tracks, rtpTransport.pacesAudio)
    }

    /** The stream before its first configuration. */
    constructor (id: StreamId, settings: Settings, audioState: AudioState, allocator: BitrateAllocator,
                 rtpTransport: RtpTransport)
      ensures Value() ==
              Machine(id, NewStream(settings), audioState.Value(), allocator.tracks, rtpTransport.pacesAudio)
      ensures this.audioState == audioState && this.allocator == allocator && this.rtpTransport == rtpTransport
    {
      this.id, this.settings := id, settings;
      this.audioState, this.allocator, this.rtpTransport := audioState, allocator, rtpTransport;
      config, sending, registeredWithAllocator, partOfAllocation := DEFAULT_CONFIG, false, false, false;
      transportOverheadPerPacketBytes, overheadPerPacket := 0, 0;
      frameLengthRange, bitrateRange, encoder := None, None, None;
      encoderSampleRateHz, encoderNumChannels := 0, 0;
    }

    static method FindExtensionIds(extensions: seq<RtpExtension>) returns (ids: ExtensionIds)
      ensures ids == ExtensionIds(
                       LastId(extensions, AUDIO_LEVEL_URI), LastId(extensions, ABS_SEND_TIME_URI),
                       LastId(extensions, ABSOLUTE_CAPTURE_TIME_URI), LastId(extensions, TRANSPORT_SEQUENCE_NUMBER_URI),
                       LastId(extensions, MID_URI), LastId(extensions, RID_URI), LastId(extensions, REPAIRED_RID_URI))
    {
      ids := ExtensionIds(0, 0, 0, 0, 0, 0, 0);
      for n := 0 to |extensions|
        invariant ids.audioLevel == LastId(extensions[..n], AUDIO_LEVEL_URI)
        invariant ids.absSendTime == LastId(extensions[..n], ABS_SEND_TIME_URI)
        invariant ids.absCaptureTime == LastId(extensions[..n], ABSOLUTE_CAPTURE_TIME_URI)
        invariant ids.transportSequenceNumber == LastId(extensions[..n], TRANSPORT_SEQUENCE_NUMBER_URI)
        invariant ids.mid == LastId(extensions[..n], MID_URI)
        invariant ids.rid == LastId(extensions[..n], RID_URI)
        invariant ids.repairedRid == LastId(extensions[..n], REPAIRED_RID_URI)
      {
        assert extensions[..n + 1][..n] == extensions[..n];
        var extension := extensions[n];
        if extension.uri == AUDIO_LEVEL_URI {
          ids := ids.(audioLevel := extension.id);
        } else if extension.uri == ABS_SEND_TIME_URI {
          ids := ids.(absSendTime := extension.id);
        } else if extension.uri == TRANSPORT_SEQUENCE_NUMBER_URI {
          ids := ids.(transportSequenceNumber := extension.id);
        } else if extension.uri == MID_URI {
          ids := ids.(mid := extension.id);
        } else if extension.uri == RID_URI {
          ids := ids.(rid := extension.id);
        } else if extension.uri == REPAIRED_RID_URI {
          ids := ids.(repairedRid := extension.id);
        } else if extension.uri == ABSOLUTE_CAPTURE_TIME_URI {
          ids := ids.(absCaptureTime := extension.id);
        }
      }
      assert extensions[..|extensions|] == extensions;
    }

    method ConfigureBitrateObserver() returns (ok: bool)
      modifies this`registeredWithAllocator, allocator
      ensures Models(SendStream.ConfigureBitrateObserver(old(Value())), ok, Value())
    {
      var constraints :=
        GetMinMaxBitrateConstraints(settings, config, overheadPerPacket, frameLengthRange, bitrateRange);
      if constraints.None? {
        return false;
      }
      var priorityBitrate := settings.priorityBitrate;
      if settings.legacyOverhead {
        priorityBitrate := priorityBitrate + Rate(LEGACY_OVERHEAD_BYTES, 20_000);
      } else {
        priorityBitrate := priorityBitrate + Rate(overheadPerPacket, frameLengthRange.value.longest);
      }
      if settings.priorityBitrateRaw.Some? {
        priorityBitrate := settings.priorityBitrateRaw.value;
      }
      if !settings.enablePriorityBitrate {
        priorityBitrate := 0;
      }
      var bitratePriority :=
        if settings.bitratePriority.Some? then settings.bitratePriority.value else config.bitratePriority;
      allocator.AddObserver(id, AllocationConfig(constraints.value.min, constraints.value.max, 0, priorityBitrate, true,
                                                 bitratePriority));
      registeredWithAllocator := true;
      ok := true;
    }

    method RemoveBitrateObserver()
      modifies this`registeredWithAllocator, allocator
      ensures Value() == SendStream.RemoveBitrateObserver(old(Value()))
    {
      registeredWithAllocator := false;
      allocator.RemoveObserver(id);
    }

    method ReconfigureBitrateObserver(newConfig: Config) returns (ok: bool)
      modifies this, allocator, rtpTransport
      ensures Models(SendStream.ReconfigureBitrateObserver(old(Value()), newConfig), ok, Value())
    {
      if AllocationFieldsEqual(config, newConfig) {
        return true;
      }
      if WantsAllocation(newConfig) && TransportSeqNumId(newConfig) != 0 {
        rtpTransport.AccountForAudioPacketsInPacedSender(true);
        config := config.(minBitrateBps := newConfig.minBitrateBps, maxBitrateBps := newConfig.maxBitrateBps);
        config := config.(bitratePriority := newConfig.bitratePriority);
        ok := ConfigureBitrateObserver();
        partOfAllocation := true;
      } else {
        rtpTransport.AccountForAudioPacketsInPacedSender(false);
        RemoveBitrateObserver();
        partOfAllocation := false;
        ok := true;
      }
    }

    method UpdateOverheadPerPacket(rtpOverhead: nat) returns (ok: bool)
      modifies this, allocator
      ensures Models(SendStream.UpdateOverheadPerPacket(old(Value()), rtpOverhead), ok, Value())
    {
      var bytes := transportOverheadPerPacketBytes + rtpOverhead;
      if overheadPerPacket == bytes {
        return true;
      }
      overheadPerPacket := bytes;
      if encoder.Some? {
        encoder := Some(OnReceivedOverhead(encoder.value, bytes));
      }
      ok := true;
      if registeredWithAllocator {
        ok := ConfigureBitrateObserver();
      }
    }

    method StoreEncoderProperties(sampleRateHz: int, channels: nat, dev: Shared.DeviceAnswer)
      modifies this, audioState, audioState.transport
      ensures Value() == SendStream.StoreEncoderProperties(old(Value()), sampleRateHz, channels, dev)
    {
      encoderSampleRateHz := sampleRateHz;
      encoderNumChannels := channels;
      if sending {
        audioState.AddSendingStream(id, sampleRateHz, channels, dev);
      }
    }

    method SetupSendCodec(newConfig: Config, dev: Shared.DeviceAnswer) returns (ok: bool)
      requires newConfig.codec.Some?
      modifies this, audioState, audioState.transport
      ensures Models(SendStream.SetupSendCodec(old(Value()), newConfig, dev), ok, Value())
    {
      var spec := newConfig.codec.value;
      if spec.format !in settings.factory {
        return true;
      }
      var e := BuildEncoder(settings.factory[spec.format], newConfig.adaptorConfig, spec, overheadPerPacket);
      if e.None? {
        return false;
      }
      StoreEncoderProperties(SampleRateHz(e.value), NumChannels(e.value), dev);
      encoder := e;
      ok := true;
    }

    /** The stack of encoders, layer by layer; None where a check fires. */
    static method BuildEncoder(profile: Profile, adaptorConfig: Option<string>, spec: CodecSpec, overhead: nat)
      returns (built: Option<Encoder>)
      ensures built == if CngFits(SpeechEncoder(profile, adaptorConfig), spec.cngPayloadType)
                       then Some(KnowingOverhead(Stack(profile, adaptorConfig, spec), overhead)) else None
    {
      var e := Speech(profile, None, None, NewFrames(profile));
      if adaptorConfig.Some? {
        var (enabled, _) := EnableAudioNetworkAdaptor(e, adaptorConfig.value);
        e := enabled;
      }
      if spec.cngPayloadType.Some? {
        if NumChannels(e) != 1 {
          return None;
        }
        e := Cng(spec.cngPayloadType.value, e);
      }
      if spec.redPayloadType.Some? {
        e := Red(spec.redPayloadType.value, 0, e);
      }
      if overhead > 0 {
        e := OnReceivedOverhead(e, overhead);
      }
      built := Some(e);
    }

    method ReconfigureANA(newConfig: Config)
      modifies this`encoder
      ensures encoder == if old(encoder).None? then None
                         else Some(ReconfigureAdaptor(old(encoder).value, config.adaptorConfig, newConfig.adaptorConfig,
                                                      overheadPerPacket))
    {
      if newConfig.adaptorConfig == config.adaptorConfig || encoder.None? {
        return;
      }
      if newConfig.adaptorConfig.Some? {
        var (e, enabled) := EnableAudioNetworkAdaptor(encoder.value, newConfig.adaptorConfig.value);
        if enabled && overheadPerPacket > 0 {
          e := OnReceivedOverhead(e, overheadPerPacket);
        }
        encoder := Some(e);
      } else {
        encoder := Some(DisableAudioNetworkAdaptor(encoder.value));
      }
    }

    method ReconfigureCNG(newConfig: Config) returns (ok: bool)
      requires config.codec.Some? && newConfig.codec.Some?
      modifies this`encoder
      ensures Models(ReconfigureCng(old(encoder), config.codec.value.cngPayloadType,
                                    newConfig.codec.value.cngPayloadType),
                     ok, encoder)
    {
      var cngPayloadType := newConfig.codec.value.cngPayloadType;
      if cngPayloadType == config.codec.value.cngPayloadType {
        return true;
      }
      if encoder.None? {
        return false;
      }
      var e := encoder.value;
      if !e.Speech? {
        e := e.inner;
      }
      if cngPayloadType.Some? {
        if NumChannels(e) != 1 {
          return false;
        }
        e := Cng(cngPayloadType.value, e);
      }
      encoder := Some(e);
      ok := true;
    }

    method ReconfigureSendCodec(newConfig: Config, dev: Shared.DeviceAnswer) returns (ok: bool)
      modifies this, audioState, audioState.transport
      ensures Models(SendStream.ReconfigureSendCodec(old(Value()), newConfig, dev), ok, Value())
    {
      if newConfig.codec.None? {
        return config.codec.None?;
      }
      if newConfig.codec == config.codec && newConfig.adaptorConfig == config.adaptorConfig {
        return true;
      }
      if NeedsNewEncoder(config, newConfig) {
        ok := SetupSendCodec(newConfig, dev);
        return;
      }
      ReconfigureANA(newConfig);
      ok := ReconfigureCNG(newConfig);
    }

    method ConfigureStream(newConfig: Config, rtpOverhead: nat, dev: Shared.DeviceAnswer) returns (ok: bool)
      modifies this, audioState, audioState.transport, allocator, rtpTransport
      ensures Models(SendStream.ConfigureStream(old(Value()), newConfig, rtpOverhead, dev), ok, Value())
    {
      ok := ReconfigureSendCodec(newConfig, dev);
      if !ok {
        return;
      }
      ok := UpdateOverheadPerPacket(rtpOverhead);
      if !ok {
        return;
      }
      if encoder.Some? {
        frameLengthRange := GetFrameLengthRange(encoder.value);
        bitrateRange := GetBitrateRange(encoder.value);
      }
      ok := FinishConfiguration(newConfig);
    }

    /** The end of ConfigureStream. */
    method FinishConfiguration(newConfig: Config) returns (ok: bool)
      modifies this, allocator, rtpTransport
      ensures Models(ObserverStage(old(Value()), newConfig), ok, Value())
    {
      ok := true;
      if sending {
        ok := ReconfigureBitrateObserver(newConfig);
      }
      config := newConfig;
    }

    method Reconfigure(newConfig: Config, rtpOverhead: nat, dev: Shared.DeviceAnswer) returns (ok: bool)
      modifies this, audioState, audioState.transport, allocator, rtpTransport
      ensures Models(SendStream.Step(old(Value()), Call.Reconfigure(newConfig, rtpOverhead, dev)), ok, Value())
      ensures ok && old(Invariant(Value())) ==>
                && Invariant(Value()) && OthersUntouched(old(Value()), Value())
                && (old(EntryCurrent(Value())) ==>
                      (EntryCurrent(Value()) <==> old(EntryFollows(Value().stream, newConfig, rtpOverhead))))
                && (old(RegistrationCurrent(Value())) ==>
                      (RegistrationCurrent(Value()) <==>
                       old(sending) ==> old(RegistrationFollows(settings, config, newConfig))))
    {
      ghost var m := Value();
      ok := ConfigureStream(newConfig, rtpOverhead, dev);
      if ok {
        CachesAfterReconfigure(m, newConfig, rtpOverhead, dev);
      }
    }

    method Start(dev: Shared.DeviceAnswer) returns (ok: bool)
      modifies this, audioState, audioState.transport, allocator, rtpTransport
      ensures Models(SendStream.Step(old(Value()), Call.Start(dev)), ok, Value())
      ensures ok && old(Invariant(Value())) ==> Invariant(Value()) && OthersUntouched(old(Value()), Value())
      ensures ok && !old(sending) && old(Invariant(Value())) ==> EntryCurrent(Value()) && RegistrationCurrent(Value())
    {
      ghost var m := Value();
      ok := StartOnce(dev);
      if ok {
        CachesAfterStart(m, dev);
      }
    }

    /** Start, as far as it does anything. */
    method StartOnce(dev: Shared.DeviceAnswer) returns (ok: bool)
      modifies this, audioState, audioState.transport, allocator, rtpTransport
      ensures Models(SendStream.StartSending(old(Value()), dev), ok, Value())
    {
      if sending {
        return true;
      }
      ok := true;
      if Eligible(settings, config) {
        rtpTransport.AccountForAudioPacketsInPacedSender(true);
        partOfAllocation := true;
        ok := ConfigureBitrateObserver();
      } else {
        partOfAllocation := false;
      }
      sending := true;
      audioState.AddSendingStream(id, encoderSampleRateHz, encoderNumChannels, dev);
    }

    method Stop() returns (ok: bool)
      modifies this, audioState, audioState.transport, allocator
      ensures Models(SendStream.Step(old(Value()), Call.Stop), ok, Value())
      ensures old(Invariant(Value())) ==>
                && ok && Invariant(Value()) && OthersUntouched(old(Value()), Value())
                && EntryCurrent(Value()) && RegistrationCurrent(Value())
    {
      ghost var m := Value();
      ok := StopOnce();
      CachesAfterStop(m);
    }

    /** Stop, as far as it does anything. */
    method StopOnce() returns (ok: bool)
      modifies this, audioState, audioState.transport, allocator
      ensures Models(SendStream.StopSending(old(Value())), ok, Value())
    {
      if !sending {
        return true;
      }
      RemoveBitrateObserver();
      sending := false;
      ok := audioState.RemoveSendingStream(id);
    }

    method SetTransportOverhead(bytes: nat, rtpOverhead: nat) returns (ok: bool)
      modifies this, allocator
      ensures Models(SendStream.Step(old(Value()), Call.SetTransportOverhead(bytes, rtpOverhead)), ok, Value())
    {
      transportOverheadPerPacketBytes := bytes;
      ok := UpdateOverheadPerPacket(rtpOverhead);
    }

    method DeliverRtcp(rtpOverhead: nat) returns (ok: bool)
      modifies this, allocator
      ensures Models(SendStream.Step(old(Value()), Call.DeliverRtcp(rtpOverhead)), ok, Value())
    {
      ok := UpdateOverheadPerPacket(rtpOverhead);
    }

    /** The encoder's adaptor picks frame lengths. */
    method Adapt(frames: FrameRange)
      modifies this`encoder
      ensures SendStream.Step(old(Value()), Call.Adapt(frames)) == Ok(Value())
    {
      if encoder.Some? {
        encoder := Some(AdaptFrameLength(encoder.value, frames));
      }
    }

    /** The encoder encodes a packet. */
    method Encode()
      modifies this`encoder
      ensures SendStream.Step(old(Value()), Call.Encode) == Ok(Value())
    {
      if encoder.Some? {
        encoder := Some(EncodePacket(encoder.value));
      }
    }

    /** The target and stable target bitrates handed on to the channel. */
    method OnBitrateUpdated(target: nat, stable: nat) returns (target': nat, stable': nat)
      ensures (target', stable') == Forwarded(Value().stream, target, stable)
    {
      target', stable' := target, stable;
      var constraints :=
        GetMinMaxBitrateConstraints(settings, config, overheadPerPacket, frameLengthRange, bitrateRange);
      if constraints.Some? {
        target' := Clamped(target', constraints.value.min, constraints.value.max);
        stable' := Clamped(stable', constraints.value.min, constraints.value.max);
      }
    }
  }

  // ---------------------------------------------------------------- what the theorems give

  lemma CachesAfterReconfigure(m: Machine, config: Config, rtp: nat, dev: Shared.DeviceAnswer)
    requires SendStream.ConfigureStream(m, config, rtp, dev).Ok?
    ensures var m' := SendStream.ConfigureStream(m, config, rtp, dev).value;
            Invariant(m) ==>
              && Invariant(m') && OthersUntouched(m, m')
              && (EntryCurrent(m) ==> (EntryCurrent(m') <==> EntryFollows(m.stream, config, rtp)))
              && (RegistrationCurrent(m) ==>
                    (RegistrationCurrent(m') <==>
                     m.stream.sending ==> RegistrationFollows(m.stream.settings, m.stream.config, config)))
  {
    if Invariant(m) {
      ConfigureKeepsInvariant(m, config, rtp, dev);
      if EntryCurrent(m) {
        ReconfigureKeepsEntryCurrentExactlyWhen(m, config, rtp, dev);
      }
      if RegistrationCurrent(m) {
        ReconfigureKeepsRegistrationCurrentExactlyWhen(m, config, rtp, dev);
      }
    }
  }

  lemma CachesAfterStart(m: Machine, dev: Shared.DeviceAnswer)
    requires SendStream.StartSending(m, dev).Ok?
    ensures var m' := SendStream.StartSending(m, dev).value;
            Invariant(m) ==>
              && Invariant(m') && OthersUntouched(m, m')
              && (!m.stream.sending ==> EntryCurrent(m') && RegistrationCurrent(m'))
  {
    if Invariant(m) {
      StartKeepsInvariant(m, dev);
    }
  }

  lemma CachesAfterStop(m: Machine)
    ensures Invariant(m) ==>
              && SendStream.StopSending(m).Ok?
              && var m' := SendStream.StopSending(m).value;
                 Invariant(m') && OthersUntouched(m, m') && EntryCurrent(m') && RegistrationCurrent(m')
  {
    if Invariant(m) {
      StopNeverFails(m);
      StopKeepsInvariant(m);
    }
  }
}
