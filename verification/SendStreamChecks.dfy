/** The checks of a send stream: exactly which calls trip one, and sound configurations under which none ever does. */
module SendStreamChecks {
  import opened Basics
  import opened AudioEncoders
  import opened SendStream
  import opened SendStreamRates
  import opened SendStreamInvariants
  import opened SendStreamRanges
  import opened SendStreamCaches
  import opened SendStreamEncoder
  import Shared = AudioState

  // ---------------------------------------------------------------- which calls pass

  /** An allocator entry can be computed, whatever the overhead. */
  predicate Computable(settings: Settings, config: Config, frames: Option<FrameRange>, rates: Option<RateRange>) {
    RatesSound(settings, config, rates) && (settings.legacyOverhead || frames.Some?)
  }

  /** A codec is not taken away; a new stack with comfort noise is mono; comfort noise is changed on a live encoder only
      if there is one, and put on only if that is mono. */
  predicate CodecPasses(s: Stream, config: Config) {
    if config.codec.None? then s.config.codec.None?
    else
      var spec := config.codec.value;
      if NeedsNewEncoder(s.config, config) then
        spec.format in s.settings.factory && spec.cngPayloadType.Some? ==> s.settings.factory[spec.format].channels == 1
      else
        || spec.cngPayloadType == s.config.codec.value.cngPayloadType
        || (s.encoder.Some? && (spec.cngPayloadType.Some? ==> s.encoderChannels == 1))
  }

  /** A registered stream is registered again when the overhead changes. */
  predicate OverheadPasses(s: Stream, overhead': nat) {
    s.registered && overhead' != s.overheadPerPacket ==>
      Computable(s.settings, s.config, s.frameLengths, s.bitrateRange)
  }

  /** A sending stream is registered when a compared field changes towards allocation. */
  predicate ObserverPasses(s: Stream, config: Config) {
    && s.sending && !AllocationFieldsEqual(s.config, config)
    && WantsAllocation(config) && TransportSeqNumId(config) != 0 ==>
      Computable(s.settings, config, FramesAfter(s, config), RatesAfter(s, config))
  }

  predicate Passes(s: Stream, call: Call) {
    match call
    case Start(_) =>
      !s.sending && Eligible(s.settings, s.config) ==> Computable(s.settings, s.config, s.frameLengths, s.bitrateRange)
    case Reconfigure(config, rtp, _) =>
      CodecPasses(s, config) && OverheadPasses(s, s.transportOverhead + rtp) && ObserverPasses(s, config)
    case SetTransportOverhead(bytes, rtp) => OverheadPasses(s, bytes + rtp)
    case DeliverRtcp(rtp) => OverheadPasses(s, s.transportOverhead + rtp)
    case _ => true
  }

  lemma {:induction false} ChannelsBelow(e: Encoder)
    requires MonoInsideCng(e)
    ensures NumChannels(Unwrapped(e)) == NumChannels(e)
    ensures NumChannels(e) == Core(e).profile.channels
  {
    if e.Speech? {
    } else {
      ChannelsBelow(e.inner);
    }
  }

  lemma CodecPassesExactlyWhen(m: Machine, config: Config, dev: Shared.DeviceAnswer)
    requires TracksEncoder(m.stream)
    ensures ReconfigureSendCodec(m, config, dev).Ok? <==> CodecPasses(m.stream, config)
  {
    var s := m.stream;
    if config.codec.None? || NeedsNewEncoder(s.config, config) {
    } else if s.encoder.Some? {
      var e := ReconfigureAdaptor(s.encoder.value, s.config.adaptorConfig, config.adaptorConfig, s.overheadPerPacket);
      AdaptorKeepsShape(s.encoder.value, s.config.adaptorConfig, config.adaptorConfig, s.overheadPerPacket);
      ChannelsBelow(e);
    }
  }

  lemma OverheadPassesExactlyWhen(m: Machine, rtp: nat)
    ensures UpdateOverheadPerPacket(m, rtp).Ok? <==> OverheadPasses(m.stream, m.stream.transportOverhead + rtp)
  {
    EntryExists(m.stream.settings, m.stream.config, m.stream.transportOverhead + rtp,
                m.stream.frameLengths, m.stream.bitrateRange);
  }

  lemma ObserverStagePassesExactlyWhen(m: Machine, config: Config)
    ensures ObserverStage(m, config).Ok? <==>
            (&& m.stream.sending && !AllocationFieldsEqual(m.stream.config, config)
             && WantsAllocation(config) && TransportSeqNumId(config) != 0 ==>
               Computable(m.stream.settings, config, m.stream.frameLengths, m.stream.bitrateRange))
  {
    var limited := m.stream.config.(minBitrateBps := config.minBitrateBps, maxBitrateBps := config.maxBitrateBps,
                                    bitratePriority := config.bitratePriority);
    EntryExists(m.stream.settings, limited, m.stream.overheadPerPacket, m.stream.frameLengths, m.stream.bitrateRange);
  }

  /** Reconfigure once the codec change and the overhead update have passed. */
  lemma ObserverPassesExactlyWhen(m: Machine, m1: Machine, config: Config, rtp: nat, dev: Shared.DeviceAnswer)
    requires Invariant(m) && ReconfigureSendCodec(m, config, dev) == Ok(m1) && UpdateOverheadPerPacket(m1, rtp).Ok?
    ensures ConfigureStream(m, config, rtp, dev).Ok? <==> ObserverPasses(m.stream, config)
  {
    CodecChangeFrame(m, config, dev);
    RangesAfterReconfigure(m, config, dev);
    OverheadUpdateFrame(m1, rtp);
    var m2 := UpdateOverheadPerPacket(m1, rtp).value;
    if m1.stream.encoder.Some? {
      OverheadKeepsShape(m1.stream.encoder.value, m1.stream.transportOverhead + rtp);
    }
    ObserverStagePassesExactlyWhen(m2.(stream := RefreshRanges(m2.stream)), config);
  }

  lemma ConfigurePassesExactlyWhen(m: Machine, config: Config, rtp: nat, dev: Shared.DeviceAnswer)
    requires Invariant(m)
    ensures ConfigureStream(m, config, rtp, dev).Ok? <==> Passes(m.stream, Reconfigure(config, rtp, dev))
  {
    CodecPassesExactlyWhen(m, config, dev);
    if CodecPasses(m.stream, config) {
      var m1 := ReconfigureSendCodec(m, config, dev).value;
      CodecChangeFrame(m, config, dev);
      OverheadPassesExactlyWhen(m1, rtp);
      if UpdateOverheadPerPacket(m1, rtp).Ok? {
        ObserverPassesExactlyWhen(m, m1, config, rtp, dev);
      }
    }
  }

  lemma StartPassesExactlyWhen(m: Machine, dev: Shared.DeviceAnswer)
    ensures StartSending(m, dev).Ok? <==> Passes(m.stream, Start(dev))
  {
    var s := m.stream;
    EntryExists(s.settings, s.config, s.overheadPerPacket, s.frameLengths, s.bitrateRange);
  }

  /** A call gets through exactly if the condition on the stream before it and the arguments holds. */
  lemma CallPassesExactlyWhen(m: Machine, call: Call)
    requires Invariant(m)
    ensures Step(m, call).Ok? <==> Passes(m.stream, call)
  {
    match call
    case Start(dev) => StartPassesExactlyWhen(m, dev);
    case Stop => StopNeverFails(m);
    case Reconfigure(config, rtp, dev) => ConfigurePassesExactlyWhen(m, config, rtp, dev);
    case SetTransportOverhead(bytes, rtp) =>
      OverheadPassesExactlyWhen(m.(stream := m.stream.(transportOverhead := bytes)), rtp);
    case DeliverRtcp(rtp) => OverheadPassesExactlyWhen(m, rtp);
    case Adapt(_) =>
    case Encode =>
  }

  // ---------------------------------------------------------------- sound configurations

  /** Every encoder the factory makes reports frame lengths, and an ordered bitrate range if any. */
  predicate FactorySound(settings: Settings) {
    forall f :: f in settings.factory ==> ProfileSound(settings.factory[f])
  }

  predicate ProfileSound(profile: Profile) {
    && profile.plainFrames.Some? && profile.adaptedFrames.Some?
    && RatesOrdered(profile.bitrates)
  }

  predicate RatesOrdered(rates: Option<RateRange>) {
    rates.Some? ==> rates.value.min <= rates.value.max
  }

  /** The configured bitrates, with the field-trial overrides applied, are valid, and, unless the overhead is fixed,
      there is a codec to tell frame lengths. */
  predicate AllocationSound(settings: Settings, config: Config) {
    RatesSound(settings, config, None) && (config.codec.Some? || settings.legacyOverhead)
  }

  /** A codec, if any, is one the factory knows, with comfort noise on mono encoders only, and whoever is to take part
      in bitrate allocation brings what an allocator entry needs. */
  predicate ConfigSound(settings: Settings, config: Config) {
    && (config.codec.Some? ==>
          && config.codec.value.format in settings.factory
          && (config.codec.value.cngPayloadType.Some? ==> settings.factory[config.codec.value.format].channels == 1))
    && (Eligible(settings, config) ==> AllocationSound(settings, config))
  }

  /** A codec, once configured, is not taken away. */
  predicate CallSound(s: Stream, call: Call) {
    call.Reconfigure? ==> ConfigSound(s.settings, call.config) && (s.config.codec.Some? ==> call.config.codec.Some?)
  }

  /** An encoder for a profile that never loses its frame lengths. */
  predicate EncoderReady(speech: Encoder, profile: Profile)
    requires speech.Speech?
  {
    speech.profile == profile && speech.frames.current.Some? && speech.frames.next.Some?
  }

  /** A stream has an encoder exactly if a codec is configured, for the format configured, and what an allocator entry
      needs as long as it is registered. */
  predicate Ready(s: Stream) {
    && FactorySound(s.settings)
    && ConfigSound(s.settings, s.config)
    && (s.config.codec.Some? <==> s.encoder.Some?)
    && (if s.encoder.Some? then
          && EncoderReady(Core(s.encoder.value), s.settings.factory[s.config.codec.value.format])
          && s.frameLengths.Some?
        else s.bitrateRange.None?)
    && (s.registered ==> AllocationSound(s.settings, s.config))
  }

  lemma {:induction false} RatesOfCore(e: Encoder)
    ensures GetBitrateRange(e) == Core(e).profile.bitrates || GetBitrateRange(e) == None
    ensures GetBitrateRange(Unwrapped(e)) == Core(e).profile.bitrates || GetBitrateRange(Unwrapped(e)) == None
  {
    if e.Speech? {
    } else {
      RatesOfCore(e.inner);
    }
  }

  lemma ReadyEntryIsComputable(s: Stream)
    requires TracksEncoder(s) && Ready(s) && AllocationSound(s.settings, s.config)
    ensures Computable(s.settings, s.config, s.frameLengths, s.bitrateRange)
  {
    if s.encoder.Some? {
      RatesOfCore(s.encoder.value);
      assert ProfileSound(s.settings.factory[s.config.codec.value.format]);
    }
  }

  /** The ranges to come are as good as those of the factory. */
  lemma RangesToComeAreSound(s: Stream, config: Config)
    requires TracksEncoder(s) && Ready(s) && ConfigSound(s.settings, config)
    requires s.config.codec.Some? ==> config.codec.Some?
    ensures config.codec.Some? ==> FramesAfter(s, config).Some?
    ensures RatesOrdered(RatesAfter(s, config))
  {
    if config.codec.Some? {
      assert ProfileSound(s.settings.factory[config.codec.value.format]);
    }
    if s.encoder.Some? {
      FramesOfCore(s.encoder.value);
      RatesOfCore(s.encoder.value);
      assert ProfileSound(s.settings.factory[s.config.codec.value.format]);
    }
  }

  /** On a ready stream no sound call trips a check. */
  lemma SoundCallsPass(m: Machine, call: Call)
    requires Invariant(m) && Ready(m.stream) && CallSound(m.stream, call)
    ensures Passes(m.stream, call) && Step(m, call).Ok?
  {
    var s := m.stream;
    if AllocationSound(s.settings, s.config) {
      ReadyEntryIsComputable(s);
    }
    if call.Reconfigure? {
      RangesToComeAreSound(s, call.config);
      SoundCodecsPass(s, call.config);
    }
    CallPassesExactlyWhen(m, call);
  }

  lemma SoundCodecsPass(s: Stream, config: Config)
    requires TracksEncoder(s) && Ready(s) && ConfigSound(s.settings, config)
    requires s.config.codec.Some? ==> config.codec.Some?
    ensures CodecPasses(s, config)
  {
    if s.encoder.Some? {
      ChannelsBelow(s.encoder.value);
    }
  }

  // ---------------------------------------------------------------- a ready stream stays ready

  /** What the codec, adaptor and overhead steps leave of an encoder. */
  lemma EncoderStaysReady(e: Encoder, profile: Profile, prior: Option<string>, next: Option<string>, overhead: nat)
    requires EncoderReady(Core(e), profile)
    ensures EncoderReady(Core(ReconfigureAdaptor(e, prior, next, overhead)), profile)
    ensures EncoderReady(Core(OnReceivedOverhead(e, overhead)), profile)
    ensures Core(Unwrapped(e)) == Core(e)
  {
    AdaptorReachesCore(e, prior, next, overhead);
    OverheadReachesCore(e, overhead);
  }

  lemma NewEncoderIsReady(profile: Profile, adaptorConfig: Option<string>, spec: CodecSpec, overhead: nat)
    requires ProfileSound(profile)
    ensures EncoderReady(Core(KnowingOverhead(Stack(profile, adaptorConfig, spec), overhead)), profile)
  {
    FreshStack(profile, adaptorConfig, spec, overhead);
    var speech := FreshSpeech(profile, adaptorConfig, spec.cngPayloadType, overhead);
    assert Core(WrapCng(speech, spec.cngPayloadType)) == speech;
  }

  lemma CodecChangeStaysReady(m: Machine, config: Config, dev: Shared.DeviceAnswer)
    requires Ready(m.stream) && ConfigSound(m.stream.settings, config)
    requires m.stream.config.codec.Some? ==> config.codec.Some?
    requires ReconfigureSendCodec(m, config, dev).Ok?
    ensures var e := ReconfigureSendCodec(m, config, dev).value.stream.encoder;
            && (config.codec.Some? <==> e.Some?)
            && (e.Some? ==> EncoderReady(Core(e.value), m.stream.settings.factory[config.codec.value.format]))
  {
    var s := m.stream;
    if config.codec.Some? {
      var profile := s.settings.factory[config.codec.value.format];
      if NeedsNewEncoder(s.config, config) {
        assert ProfileSound(profile);
        NewEncoderIsReady(profile, config.adaptorConfig, config.codec.value, s.overheadPerPacket);
      } else {
        var e1 :=
          ReconfigureAdaptor(s.encoder.value, s.config.adaptorConfig, config.adaptorConfig, s.overheadPerPacket);
        EncoderStaysReady(s.encoder.value, profile, s.config.adaptorConfig, config.adaptorConfig, s.overheadPerPacket);
        EncoderStaysReady(e1, profile, None, None, 0);
      }
    }
  }

  lemma ReadyFrames(e: Encoder, profile: Profile)
    requires EncoderReady(Core(e), profile) && ProfileSound(profile)
    ensures GetFrameLengthRange(e).Some?
  {
    FramesOfCore(e);
  }

  /** Registration after Reconfigure, by way of the observer stage. */
  lemma ObserverStageStaysSound(m: Machine, config: Config)
    requires RegistrationAgrees(m) && ObserverStage(m, config).Ok?
    requires m.stream.registered ==> AllocationSound(m.stream.settings, m.stream.config)
    requires ConfigSound(m.stream.settings, config) && (m.stream.config.codec.Some? ==> config.codec.Some?)
    ensures ObserverStage(m, config).value.stream.registered ==> AllocationSound(m.stream.settings, config)
  {
  }

  lemma ConfiguredIsReady(m: Machine, config: Config, rtp: nat, dev: Shared.DeviceAnswer)
    requires Invariant(m) && Ready(m.stream) && ConfigSound(m.stream.settings, config)
    requires m.stream.config.codec.Some? ==> config.codec.Some?
    requires ConfigureStream(m, config, rtp, dev).Ok?
    ensures Ready(ConfigureStream(m, config, rtp, dev).value.stream)
  {
    var m1, m3 := Stages(m, config, rtp, dev);
    CodecChangeStaysReady(m, config, dev);
    ObserverStageStaysSound(m3, config);
    ObserverStageFrame(m3, config);
    ReconfigureCopiesFrames(m, config, rtp, dev);
    if m1.stream.encoder.Some? {
      var profile := m.stream.settings.factory[config.codec.value.format];
      assert ProfileSound(profile);
      EncoderStaysReady(m1.stream.encoder.value, profile, None, None, m.stream.transportOverhead + rtp);
      ReadyFrames(m3.stream.encoder.value, profile);
    }
  }

  lemma OverheadKeepsReady(m: Machine, rtp: nat)
    requires RegistrationAgrees(m) && Ready(m.stream) && UpdateOverheadPerPacket(m, rtp).Ok?
    ensures Ready(UpdateOverheadPerPacket(m, rtp).value.stream)
  {
    OverheadUpdateFrame(m, rtp);
    if m.stream.encoder.Some? {
      EncoderStaysReady(m.stream.encoder.value, m.stream.settings.factory[m.stream.config.codec.value.format],
                        None, None, m.stream.transportOverhead + rtp);
    }
  }

  lemma {:induction false} AdaptingOnCore(e: Encoder, frames: FrameRange)
    ensures Core(AdaptFrameLength(e, frames)) == AdaptFrameLength(Core(e), frames)
  {
    if e.Speech? {
    } else {
      AdaptingOnCore(e.inner, frames);
    }
  }

  lemma EncodingKeepsReady(s: Stream, frames: FrameRange)
    requires Ready(s)
    ensures Ready(Adapted(s, frames)) && Ready(Encoded(s))
  {
    if s.encoder.Some? {
      AdaptingOnCore(s.encoder.value, frames);
      EncodingOnCore(s.encoder.value, frames);
    }
  }

  lemma SoundCallsKeepReady(m: Machine, call: Call)
    requires Invariant(m) && Ready(m.stream) && CallSound(m.stream, call) && Step(m, call).Ok?
    ensures Ready(Step(m, call).value.stream)
  {
    match call
    case Start(_) =>
    case Stop =>
    case Reconfigure(config, rtp, dev) => ConfiguredIsReady(m, config, rtp, dev);
    case SetTransportOverhead(bytes, rtp) =>
      OverheadKeepsReady(m.(stream := m.stream.(transportOverhead := bytes)), rtp);
    case DeliverRtcp(rtp) => OverheadKeepsReady(m, rtp);
    case Adapt(frames) => EncodingKeepsReady(m.stream, frames);
    case Encode => EncodingKeepsReady(m.stream, FrameLengths(1, 1));
  }
}
