/** What every call on a send stream keeps: registration, announcement and the values copied from its encoder. */
module SendStreamInvariants {
  import opened Basics
  import opened AudioEncoders
  import opened SendStream
  import Shared = AudioState

  // ---------------------------------------------------------------- invariants of every call

  /** Only mono encoders sit inside a comfort-noise wrapper. */
  predicate MonoInsideCng(e: Encoder) {
    match e
    case Speech(_, _, _, _) => true
    case Cng(_, inner) => NumChannels(inner) == 1 && MonoInsideCng(inner)
    case Red(_, _, inner) => MonoInsideCng(inner)
  }

  /** The values copied from the encoder still describe it, but for the frame lengths, which may change as it encodes.
      */
  predicate TracksEncoder(s: Stream) {
    s.encoder.Some? ==>
      && MonoInsideCng(s.encoder.value)
      && s.encoderSampleRateHz == SampleRateHz(s.encoder.value)
      && s.encoderChannels == NumChannels(s.encoder.value)
      && s.bitrateRange == GetBitrateRange(s.encoder.value)
  }

  /** Registration is known to the allocator, happens only while sending, and is then what the RTP module was told. */
  predicate RegistrationAgrees(m: Machine) {
    && (m.stream.registered <==> m.id in m.allocator)
    && (m.stream.registered ==> m.stream.sending)
    && (m.stream.sending ==> (m.stream.registered <==> m.stream.partOfAllocation))
  }

  /** The shared audio state lists the stream exactly while it sends, with its encoder's properties. */
  predicate Announced(m: Machine) {
    && (m.stream.sending <==> m.id in m.audio.sending)
    && (m.stream.sending ==>
          m.audio.sending[m.id] == Shared.StreamProperties(m.stream.encoderSampleRateHz, m.stream.encoderChannels))
  }

  predicate Invariant(m: Machine) {
    && TracksEncoder(m.stream)
    && RegistrationAgrees(m)
    && Announced(m)
  }

  /** What a call on one stream cannot change. */
  predicate OthersUntouched(m: Machine, m': Machine) {
    && m'.id == m.id
    && m'.stream.settings == m.stream.settings
    && m'.allocator - {m.id} == m.allocator - {m.id}
    && m'.audio.sending - {m.id} == m.audio.sending - {m.id}
    && m'.audio == m.audio.(sending := m'.audio.sending, transport := m'.audio.transport,
                            deviceRecording := m'.audio.deviceRecording)
  }

  lemma {:induction false} OverheadKeepsShape(e: Encoder, bytes: nat)
    ensures var e' := OnReceivedOverhead(e, bytes);
            && SampleRateHz(e') == SampleRateHz(e)
            && NumChannels(e') == NumChannels(e)
            && GetFrameLengthRange(e') == GetFrameLengthRange(e)
            && GetBitrateRange(e') == GetBitrateRange(e)
            && MonoInsideCng(e') == MonoInsideCng(e)
  {
    match e
    case Speech(_, _, _, _) =>
    case Cng(_, _) =>
    case Red(_, _, inner) => OverheadKeepsShape(inner, bytes);
  }

  lemma {:induction false} AdaptorKeepsShape(e: Encoder, prior: Option<string>, next: Option<string>, overhead: nat)
    ensures var e' := ReconfigureAdaptor(e, prior, next, overhead);
            && SampleRateHz(e') == SampleRateHz(e)
            && NumChannels(e') == NumChannels(e)
            && MonoInsideCng(e') == MonoInsideCng(e)
  {
    EnableKeepsShape(e, if next.Some? then next.value else "");
    DisableKeepsShape(e);
    if next.Some? {
      OverheadKeepsShape(EnableAudioNetworkAdaptor(e, next.value).0, overhead);
    }
  }

  lemma {:induction false} EnableKeepsShape(e: Encoder, config: string)
    ensures var e' := EnableAudioNetworkAdaptor(e, config).0;
            && SampleRateHz(e') == SampleRateHz(e) && NumChannels(e') == NumChannels(e)
            && MonoInsideCng(e') == MonoInsideCng(e)
  {
    match e
    case Speech(_, _, _, _) =>
    case Cng(_, _) =>
    case Red(_, _, inner) => EnableKeepsShape(inner, config);
  }

  lemma {:induction false} DisableKeepsShape(e: Encoder)
    ensures var e' := DisableAudioNetworkAdaptor(e);
            && SampleRateHz(e') == SampleRateHz(e) && NumChannels(e') == NumChannels(e)
            && MonoInsideCng(e') == MonoInsideCng(e)
  {
    match e
    case Speech(_, _, _, _) =>
    case Cng(_, _) =>
    case Red(_, _, inner) => DisableKeepsShape(inner);
  }

  /** An overhead update touches the encoder, the overhead and the stream's own allocator entry. */
  lemma OverheadUpdateTouches(m: Machine, rtp: nat)
    requires UpdateOverheadPerPacket(m, rtp).Ok?
    ensures var m' := UpdateOverheadPerPacket(m, rtp).value;
            && m'.id == m.id && m'.audio == m.audio && m'.allocator - {m.id} == m.allocator - {m.id}
            && m'.stream == m.stream.(encoder := m'.stream.encoder, overheadPerPacket := m'.stream.overheadPerPacket)
            && (m'.stream.encoder == m.stream.encoder ||
                m'.stream.encoder == DeliverOverhead(m.stream.encoder, m.stream.transportOverhead + rtp))
            && (RegistrationAgrees(m) ==> RegistrationAgrees(m'))
  {
  }

  lemma OverheadUpdateKeepsInvariant(m: Machine, rtp: nat)
    requires UpdateOverheadPerPacket(m, rtp).Ok?
    ensures var m' := UpdateOverheadPerPacket(m, rtp).value;
            && OthersUntouched(m, m') && m'.audio == m.audio
            && (RegistrationAgrees(m) ==> RegistrationAgrees(m'))
            && (TracksEncoder(m.stream) ==> TracksEncoder(m'.stream))
            && (Announced(m) ==> Announced(m'))
  {
    OverheadUpdateTouches(m, rtp);
    if m.stream.encoder.Some? {
      OverheadKeepsShape(m.stream.encoder.value, m.stream.transportOverhead + rtp);
    }
  }

  /** The part of TracksEncoder that a codec change already establishes; the ranges are refreshed later. */
  predicate PropertiesTrackEncoder(s: Stream) {
    s.encoder.Some? ==>
      && MonoInsideCng(s.encoder.value)
      && s.encoderSampleRateHz == SampleRateHz(s.encoder.value)
      && s.encoderChannels == NumChannels(s.encoder.value)
  }

  lemma NewEncoderFits(profile: Profile, adaptorConfig: Option<string>, spec: CodecSpec, overhead: nat)
    requires CngFits(SpeechEncoder(profile, adaptorConfig), spec.cngPayloadType)
    ensures MonoInsideCng(KnowingOverhead(Stack(profile, adaptorConfig, spec), overhead))
  {
    OverheadKeepsShape(Stack(profile, adaptorConfig, spec), overhead);
  }

  lemma SetupKeepsInvariant(m: Machine, config: Config, dev: Shared.DeviceAnswer)
    requires Invariant(m) && config.codec.Some?
    requires SetupSendCodec(m, config, dev).Ok?
    ensures var m' := SetupSendCodec(m, config, dev).value;
            && OthersUntouched(m, m') && m'.allocator == m.allocator
            && RegistrationAgrees(m') && Announced(m') && PropertiesTrackEncoder(m'.stream)
  {
    var spec := config.codec.value;
    if spec.format in m.stream.settings.factory {
      NewEncoderFits(m.stream.settings.factory[spec.format], config.adaptorConfig, spec, m.stream.overheadPerPacket);
    }
  }

  lemma CngKeepsProperties(e: Encoder, prior: Option<int>, next: Option<int>)
    requires MonoInsideCng(e)
    requires ReconfigureCng(Some(e), prior, next).Ok?
    ensures var e' := ReconfigureCng(Some(e), prior, next).value;
            e'.Some? && MonoInsideCng(e'.value)
            && SampleRateHz(e'.value) == SampleRateHz(e) && NumChannels(e'.value) == NumChannels(e)
  {
  }

  lemma CodecChangeKeepsInvariant(m: Machine, config: Config, dev: Shared.DeviceAnswer)
    requires Invariant(m)
    requires ReconfigureSendCodec(m, config, dev).Ok?
    ensures var m' := ReconfigureSendCodec(m, config, dev).value;
            && OthersUntouched(m, m') && m'.allocator == m.allocator
            && RegistrationAgrees(m') && Announced(m') && PropertiesTrackEncoder(m'.stream)
  {
    if config.codec.Some? {
      if NeedsNewEncoder(m.stream.config, config) {
        SetupKeepsInvariant(m, config, dev);
      } else if m.stream.encoder.Some? {
        var e := ReconfigureAdaptor(m.stream.encoder.value, m.stream.config.adaptorConfig, config.adaptorConfig,
                                    m.stream.overheadPerPacket);
        AdaptorKeepsShape(m.stream.encoder.value, m.stream.config.adaptorConfig, config.adaptorConfig,
                          m.stream.overheadPerPacket);
        CngKeepsProperties(e, m.stream.config.codec.value.cngPayloadType, config.codec.value.cngPayloadType);
      }
    }
  }

  /** A change of the observer leaves the shared audio state and all but the registration alone. */
  lemma ObserverChangeFrame(m: Machine, config: Config)
    requires m.stream.sending && ReconfigureBitrateObserver(m, config).Ok?
    ensures var m' := ReconfigureBitrateObserver(m, config).value;
            && m'.id == m.id && m'.audio == m.audio && m'.allocator - {m.id} == m.allocator - {m.id}
            && m'.stream == m.stream.(config := m'.stream.config, registered := m'.stream.registered,
                                      partOfAllocation := m'.stream.partOfAllocation)
            && (RegistrationAgrees(m) ==> RegistrationAgrees(m'))
  {
  }

  lemma ObserverChangeKeepsInvariant(m: Machine, config: Config)
    requires Invariant(m) && m.stream.sending
    requires ReconfigureBitrateObserver(m, config).Ok?
    ensures var m' := ReconfigureBitrateObserver(m, config).value;
            Invariant(m') && OthersUntouched(m, m') && m'.audio == m.audio
  {
    ObserverChangeFrame(m, config);
  }

  /** The overhead update and the refresh complete what a codec change began. */
  lemma RefreshKeepsInvariant(m: Machine, rtp: nat)
    requires RegistrationAgrees(m) && Announced(m) && PropertiesTrackEncoder(m.stream)
    requires UpdateOverheadPerPacket(m, rtp).Ok?
    ensures var m2 := UpdateOverheadPerPacket(m, rtp).value;
            var m3 := m2.(stream := RefreshRanges(m2.stream));
            Invariant(m3) && OthersUntouched(m, m3)
  {
    OverheadUpdateKeepsInvariant(m, rtp);
    if m.stream.encoder.Some? {
      OverheadKeepsShape(m.stream.encoder.value, m.stream.transportOverhead + rtp);
    }
  }

  lemma UntouchedInTurn(m: Machine, m1: Machine, m2: Machine)
    requires OthersUntouched(m, m1) && OthersUntouched(m1, m2)
    ensures OthersUntouched(m, m2)
  {
  }

  lemma ConfigureKeepsInvariant(m: Machine, config: Config, rtp: nat, dev: Shared.DeviceAnswer)
    requires Invariant(m)
    requires ConfigureStream(m, config, rtp, dev).Ok?
    ensures var m' := ConfigureStream(m, config, rtp, dev).value;
            Invariant(m') && OthersUntouched(m, m')
  {
    var m1 := ReconfigureSendCodec(m, config, dev).value;
    CodecChangeKeepsInvariant(m, config, dev);
    var m2 := UpdateOverheadPerPacket(m1, rtp).value;
    RefreshKeepsInvariant(m1, rtp);
    var m3 := m2.(stream := RefreshRanges(m2.stream));
    UntouchedInTurn(m, m1, m3);
    if m3.stream.sending {
      ObserverChangeKeepsInvariant(m3, config);
      UntouchedInTurn(m, m3, ReconfigureBitrateObserver(m3, config).value);
    }
  }

  /** Registration, announcement and tracking hold after every call that gets through, and no call touches what
      belongs to another stream. */
  lemma StepKeepsInvariant(m: Machine, call: Call)
    requires Invariant(m)
    requires Step(m, call).Ok?
    ensures Invariant(Step(m, call).value) && OthersUntouched(m, Step(m, call).value)
  {
    match call
    case Start(dev) => StartKeepsInvariant(m, dev);
    case Stop => StopKeepsInvariant(m);
    case Reconfigure(config, rtp, dev) => ConfigureKeepsInvariant(m, config, rtp, dev);
    case SetTransportOverhead(bytes, rtp) =>
      OverheadUpdateKeepsInvariant(m.(stream := m.stream.(transportOverhead := bytes)), rtp);
    case DeliverRtcp(rtp) => OverheadUpdateKeepsInvariant(m, rtp);
    case Adapt(frames) => EncodingKeepsInvariant(m, frames);
    case Encode => EncodingKeepsInvariant(m, FrameLengths(1, 1));
  }

  lemma {:induction false} EncodingKeepsShape(e: Encoder, frames: FrameRange)
    ensures var e' := AdaptFrameLength(e, frames);
            && SampleRateHz(e') == SampleRateHz(e) && NumChannels(e') == NumChannels(e)
            && GetBitrateRange(e') == GetBitrateRange(e) && MonoInsideCng(e') == MonoInsideCng(e)
            && GetFrameLengthRange(e') == GetFrameLengthRange(e)
    ensures var e' := EncodePacket(e);
            && SampleRateHz(e') == SampleRateHz(e) && NumChannels(e') == NumChannels(e)
            && GetBitrateRange(e') == GetBitrateRange(e) && MonoInsideCng(e') == MonoInsideCng(e)
  {
    if e.Speech? {
    } else {
      EncodingKeepsShape(e.inner, frames);
    }
  }

  lemma EncodingKeepsInvariant(m: Machine, frames: FrameRange)
    requires Invariant(m)
    ensures var m' := m.(stream := Adapted(m.stream, frames));
            Invariant(m') && OthersUntouched(m, m')
    ensures var m' := m.(stream := Encoded(m.stream));
            Invariant(m') && OthersUntouched(m, m')
  {
    if m.stream.encoder.Some? {
      EncodingKeepsShape(m.stream.encoder.value, frames);
    }
  }

  lemma StartKeepsInvariant(m: Machine, dev: Shared.DeviceAnswer)
    requires Invariant(m) && StartSending(m, dev).Ok?
    ensures Invariant(StartSending(m, dev).value) && OthersUntouched(m, StartSending(m, dev).value)
  {
    if !m.stream.sending {
      var m' := StartSending(m, dev).value;
      var props := Shared.StreamProperties(m.stream.encoderSampleRateHz, m.stream.encoderChannels);
      assert m'.audio == Shared.AddSendingStream(m.audio, m.id, props, dev);
      assert m'.audio.sending == m.audio.sending[m.id := props];
    }
  }

  lemma StopKeepsInvariant(m: Machine)
    requires Invariant(m) && StopSending(m).Ok?
    ensures Invariant(StopSending(m).value) && OthersUntouched(m, StopSending(m).value)
  {
    if m.stream.sending {
      StopTouches(m);
    }
  }

  lemma StopTouches(m: Machine)
    requires m.stream.sending && StopSending(m).Ok?
    ensures var m' := StopSending(m).value;
            && m'.id == m.id && m'.allocator == m.allocator - {m.id}
            && m'.audio.sending == m.audio.sending - {m.id}
            && m'.audio == m.audio.(sending := m'.audio.sending, transport := m'.audio.transport,
                                    deviceRecording := m'.audio.deviceRecording)
            && m'.stream == m.stream.(sending := false, registered := false)
  {
  }

  /** The check on the erased count in RemoveSendingStream never fires. */
  lemma StopNeverFails(m: Machine)
    requires Announced(m)
    ensures Step(m, Stop).Ok?
  {
  }
}
