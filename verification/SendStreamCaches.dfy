/** Values a send stream caches: its allocator entry, its registration, and the frame lengths of its encoder. Conditions
    that can be tested before a call say exactly when it keeps one current, and which calls bring a stale one up to
    date. */
module SendStreamCaches {
  import opened Basics
  import opened AudioEncoders
  import opened SendStream
  import opened SendStreamInvariants
  import opened SendStreamRanges
  import opened SendStreamRates
  import Shared = AudioState

  // ---------------------------------------------------------------- the stages of Reconfigure

  /** A codec change leaves everything alone but the encoder and the properties announced for it. */
  lemma CodecChangeFrame(m: Machine, config: Config, dev: Shared.DeviceAnswer)
    requires ReconfigureSendCodec(m, config, dev).Ok?
    ensures var m' := ReconfigureSendCodec(m, config, dev).value;
            && m' == m.(stream := m'.stream, audio := m'.audio)
            && m'.stream == m.stream.(encoder := m'.stream.encoder,
                                      encoderSampleRateHz := m'.stream.encoderSampleRateHz,
                                      encoderChannels := m'.stream.encoderChannels)
  {
  }

  lemma OverheadUpdateFrame(m: Machine, rtp: nat)
    requires RegistrationAgrees(m)
    requires UpdateOverheadPerPacket(m, rtp).Ok?
    ensures var m' := UpdateOverheadPerPacket(m, rtp).value;
            && m' == m.(stream := m'.stream, allocator := m'.allocator)
            && m'.stream == m.stream.(overheadPerPacket := m.stream.transportOverhead + rtp,
                                      encoder := m'.stream.encoder)
            && m'.stream.encoder == (if m.stream.transportOverhead + rtp == m.stream.overheadPerPacket
                                     then m.stream.encoder
                                     else DeliverOverhead(m.stream.encoder, m.stream.transportOverhead + rtp))
            && RegistrationAgrees(m')
            && (m.stream.registered ==> EntryHeld(m, m.stream.transportOverhead + rtp) == Some(m'.allocator[m.id]))
  {
  }

  /** What the allocator holds for a registered stream once the overhead is known: it is told only of changes. */
  function EntryHeld(m: Machine, overhead: nat): Option<AllocationConfig>
    requires m.id in m.allocator
  {
    if overhead == m.stream.overheadPerPacket then Some(m.allocator[m.id])
    else Entry(m.stream.settings, m.stream.config, overhead, m.stream.frameLengths, m.stream.bitrateRange)
  }

  /** The end of Reconfigure, with the encoder, the overhead and the ranges already new. */
  function ObserverStage(m: Machine, config: Config): Outcome<Machine> {
    var m' :- if m.stream.sending then ReconfigureBitrateObserver(m, config) else Ok(m);
    Ok(m'.(stream := m'.stream.(config := config)))
  }

  /** Reconfigure up to the observer stage: m1 is the stream after the codec change, m3 the one the observer stage
      meets. If the overhead changed, the allocator entry was renewed for it, with the old ranges. */
  lemma Stages(m: Machine, config: Config, rtp: nat, dev: Shared.DeviceAnswer) returns (m1: Machine, m3: Machine)
    requires RegistrationAgrees(m)
    requires ConfigureStream(m, config, rtp, dev).Ok?
    ensures ReconfigureSendCodec(m, config, dev) == Ok(m1)
    ensures ConfigureStream(m, config, rtp, dev) == ObserverStage(m3, config)
    ensures var overhead := m.stream.transportOverhead + rtp;
            var encoder := if overhead == m.stream.overheadPerPacket then m1.stream.encoder
                           else DeliverOverhead(m1.stream.encoder, overhead);
            var ranges := RefreshRanges(m1.stream);
            && m3.stream == m1.stream.(encoder := encoder, overheadPerPacket := overhead,
                                       frameLengths := ranges.frameLengths, bitrateRange := ranges.bitrateRange)
            && m1.stream == m.stream.(encoder := m1.stream.encoder,
                                      encoderSampleRateHz := m1.stream.encoderSampleRateHz,
                                      encoderChannels := m1.stream.encoderChannels)
            && m3.id == m.id && m3.audio == m1.audio && RegistrationAgrees(m3)
            && (m.stream.registered ==> EntryHeld(m, overhead) == Some(m3.allocator[m.id]))
  {
    m1 := ReconfigureSendCodec(m, config, dev).value;
    CodecChangeFrame(m, config, dev);
    var m2 := UpdateOverheadPerPacket(m1, rtp).value;
    OverheadUpdateFrame(m1, rtp);
    m3 := m2.(stream := RefreshRanges(m2.stream));
    if m1.stream.encoder.Some? {
      OverheadKeepsShape(m1.stream.encoder.value, m1.stream.transportOverhead + rtp);
    }
  }

  lemma ObserverStageFrame(m: Machine, config: Config)
    requires ObserverStage(m, config).Ok?
    ensures var s := ObserverStage(m, config).value.stream;
            && s.encoder == m.stream.encoder && s.settings == m.stream.settings
            && s.frameLengths == m.stream.frameLengths && s.bitrateRange == m.stream.bitrateRange
            && s.overheadPerPacket == m.stream.overheadPerPacket && s.config == config
            && s.sending == m.stream.sending && s.transportOverhead == m.stream.transportOverhead
            && s.encoderSampleRateHz == m.stream.encoderSampleRateHz && s.encoderChannels == m.stream.encoderChannels
  {
  }

  lemma ObserverStageEntry(m: Machine, config: Config)
    requires RegistrationAgrees(m) && ObserverStage(m, config).Ok?
    ensures EntryCurrent(ObserverStage(m, config).value) <==>
            !m.stream.registered || !AllocationFieldsEqual(m.stream.config, config) || EntryCurrent(m)
  {
  }

  lemma ObserverStageRegistration(m: Machine, config: Config)
    requires RegistrationAgrees(m) && ObserverStage(m, config).Ok?
    requires RegistrationCurrent(m)
    ensures RegistrationCurrent(ObserverStage(m, config).value) <==>
            !m.stream.sending || RegistrationFollows(m.stream.settings, m.stream.config, config)
  {
  }

  /** Whether the audio device starts if a call asks it to. */
  predicate DeviceStarts(call: Call) {
    match call
    case Start(dev) => dev.Starts()
    case Reconfigure(_, _, dev) => dev.Starts()
    case _ => true
  }

  /** Calls on a stream reach the shared audio state only through its own operations, which keep it safe. */
  lemma StepKeepsAudioSafe(m: Machine, call: Call)
    requires Shared.Safe(m.audio) && RegistrationAgrees(m)
    requires Step(m, call).Ok?
    ensures var audio := Step(m, call).value.audio;
            Shared.Safe(audio) && (Shared.Running(m.audio) && DeviceStarts(call) ==> Shared.Running(audio))
  {
    var props := Shared.StreamProperties(m.stream.encoderSampleRateHz, m.stream.encoderChannels);
    match call
    case Start(dev) => StartKeepsAudioSafe(m, dev);
    case Stop => Shared.SendingStepsKeepSafe(m.audio, m.id, props, Shared.DeviceAnswer(true, true));
    case Reconfigure(config, rtp, dev) => ReconfigureKeepsAudioSafe(m, config, rtp, dev);
    case SetTransportOverhead(bytes, rtp) =>
      OverheadUpdateFrame(m.(stream := m.stream.(transportOverhead := bytes)), rtp);
    case DeliverRtcp(rtp) => OverheadUpdateFrame(m, rtp);
    case Adapt(_) =>
    case Encode =>
  }

  lemma StartKeepsAudioSafe(m: Machine, dev: Shared.DeviceAnswer)
    requires Shared.Safe(m.audio)
    requires StartSending(m, dev).Ok?
    ensures var audio := StartSending(m, dev).value.audio;
            Shared.Safe(audio) && (Shared.Running(m.audio) && dev.Starts() ==> Shared.Running(audio))
  {
    var props := Shared.StreamProperties(m.stream.encoderSampleRateHz, m.stream.encoderChannels);
    assert m.stream.sending || StartSending(m, dev).value.audio == Shared.AddSendingStream(m.audio, m.id, props, dev);
    Shared.SendingStepsKeepSafe(m.audio, m.id, props, dev);
  }

  lemma ReconfigureKeepsAudioSafe(m: Machine, config: Config, rtp: nat, dev: Shared.DeviceAnswer)
    requires Shared.Safe(m.audio) && RegistrationAgrees(m)
    requires ConfigureStream(m, config, rtp, dev).Ok?
    ensures var audio := ConfigureStream(m, config, rtp, dev).value.audio;
            Shared.Safe(audio) && (Shared.Running(m.audio) && dev.Starts() ==> Shared.Running(audio))
  {
    var m1, m3 := Stages(m, config, rtp, dev);
    assert ObserverStage(m3, config).value.audio == m3.audio;
    CodecChangeKeepsAudioSafe(m, config, dev);
  }

  lemma CodecChangeKeepsAudioSafe(m: Machine, config: Config, dev: Shared.DeviceAnswer)
    requires Shared.Safe(m.audio)
    requires ReconfigureSendCodec(m, config, dev).Ok?
    ensures var audio := ReconfigureSendCodec(m, config, dev).value.audio;
            Shared.Safe(audio) && (Shared.Running(m.audio) && dev.Starts() ==> Shared.Running(audio))
  {
    var m1 := ReconfigureSendCodec(m, config, dev).value;
    var props := Shared.StreamProperties(m1.stream.encoderSampleRateHz, m1.stream.encoderChannels);
    CodecChangeAudio(m, config, dev);
    Shared.SendingStepsKeepSafe(m.audio, m.id, props, dev);
  }

  /** A codec change either leaves the audio state alone or announces the stream again. */
  lemma CodecChangeAudio(m: Machine, config: Config, dev: Shared.DeviceAnswer)
    requires ReconfigureSendCodec(m, config, dev).Ok?
    ensures var m1 := ReconfigureSendCodec(m, config, dev).value;
            var props := Shared.StreamProperties(m1.stream.encoderSampleRateHz, m1.stream.encoderChannels);
            m1.audio == m.audio || m1.audio == Shared.AddSendingStream(m.audio, m.id, props, dev)
  {
  }

  // ---------------------------------------------------------------- the allocator entry

  /** While registered, the allocator holds what the current state calls for. */
  predicate EntryCurrent(m: Machine) {
    m.stream.registered && m.id in m.allocator ==> CurrentEntry(m.stream) == Some(m.allocator[m.id])
  }

  /** ReconfigureBitrateObserver does nothing when the compared fields are equal, so the entry computed before the
      ranges were refreshed has to be right for the ranges the new configuration brings. */
  predicate EntryFollows(s: Stream, config: Config, rtp: nat) {
    s.registered && AllocationFieldsEqual(s.config, config) ==>
      SameBitrates(s.settings, s.config, s.transportOverhead + rtp, s.frameLengths, s.bitrateRange,
                   FramesAfter(s, config), RatesAfter(s, config))
  }

  lemma OtherCallsKeepEntryCurrent(m: Machine, call: Call)
    requires Invariant(m) && EntryCurrent(m)
    requires Step(m, call).Ok? && !call.Reconfigure?
    ensures EntryCurrent(Step(m, call).value)
  {
  }

  /** What the allocator holds when Reconfigure leaves it alone is right for the ranges to come. */
  predicate EntryRight(m: Machine, config: Config, rtp: nat)
    requires RegistrationAgrees(m)
  {
    var s := m.stream;
    s.registered && AllocationFieldsEqual(s.config, config) ==>
      EntryHeld(m, s.transportOverhead + rtp) ==
      Entry(s.settings, s.config, s.transportOverhead + rtp, FramesAfter(s, config), RatesAfter(s, config))
  }

  /** Whether or not the entry was current before. */
  lemma EntryAfterReconfigure(m: Machine, config: Config, rtp: nat, dev: Shared.DeviceAnswer)
    requires Invariant(m)
    requires ConfigureStream(m, config, rtp, dev).Ok?
    ensures EntryCurrent(ConfigureStream(m, config, rtp, dev).value) <==> EntryRight(m, config, rtp)
  {
    var m1, m3 := Stages(m, config, rtp, dev);
    RangesAfterReconfigure(m, config, dev);
    ObserverStageEntry(m3, config);
  }

  /** An entry computed for the old ranges is right exactly if the new ones lead to the same bitrates. */
  lemma ComputedEntryIsRight(m: Machine, config: Config, rtp: nat)
    requires RegistrationAgrees(m)
    requires var s := m.stream;
             var computed := Entry(s.settings, s.config, s.transportOverhead + rtp, s.frameLengths, s.bitrateRange);
             s.registered ==> computed.Some? && EntryHeld(m, s.transportOverhead + rtp) == computed
    ensures EntryRight(m, config, rtp) <==> EntryFollows(m.stream, config, rtp)
  {
    var s := m.stream;
    if s.registered {
      SameEntryExactlyWhen(s.settings, s.config, s.transportOverhead + rtp, s.frameLengths, s.bitrateRange,
                           FramesAfter(s, config), RatesAfter(s, config));
    }
  }

  lemma CurrentEntryIsRight(m: Machine, config: Config, rtp: nat)
    requires RegistrationAgrees(m) && EntryCurrent(m)
    ensures EntryRight(m, config, rtp) <==> EntryFollows(m.stream, config, rtp)
  {
    var s := m.stream;
    EntryExists(s.settings, s.config, s.overheadPerPacket, s.frameLengths, s.bitrateRange);
    EntryExists(s.settings, s.config, s.transportOverhead + rtp, s.frameLengths, s.bitrateRange);
    ComputedEntryIsRight(m, config, rtp);
  }

  lemma ReconfigureKeepsEntryCurrentExactlyWhen(m: Machine, config: Config, rtp: nat, dev: Shared.DeviceAnswer)
    requires Invariant(m) && EntryCurrent(m)
    requires ConfigureStream(m, config, rtp, dev).Ok?
    ensures EntryCurrent(ConfigureStream(m, config, rtp, dev).value) <==> EntryFollows(m.stream, config, rtp)
  {
    EntryAfterReconfigure(m, config, rtp, dev);
    CurrentEntryIsRight(m, config, rtp);
  }

  /** What brings a stale entry up to date: stopping, a change of the overhead, a Reconfigure with a compared field
      changed, or one that happens to lead to ranges for which the entry is right. */
  predicate EntryRecovers(m: Machine, call: Call)
    requires m.id in m.allocator
  {
    var s := m.stream;
    match call
    case Stop => true
    case SetTransportOverhead(bytes, rtp) => bytes + rtp != s.overheadPerPacket
    case DeliverRtcp(rtp) => s.transportOverhead + rtp != s.overheadPerPacket
    case Reconfigure(config, rtp, _) =>
      || !AllocationFieldsEqual(s.config, config)
      || (if s.transportOverhead + rtp != s.overheadPerPacket then EntryFollows(s, config, rtp)
          else Some(m.allocator[m.id]) ==
               Entry(s.settings, s.config, s.overheadPerPacket, FramesAfter(s, config), RatesAfter(s, config)))
    case _ => false
  }

  lemma StaleEntryRecoversExactlyWhen(m: Machine, call: Call)
    requires Invariant(m) && !EntryCurrent(m)
    requires Step(m, call).Ok?
    ensures EntryCurrent(Step(m, call).value) <==> EntryRecovers(m, call)
  {
    match call
    case Start(_) =>
    case Stop =>
    case SetTransportOverhead(bytes, rtp) =>
    case DeliverRtcp(rtp) =>
    case Adapt(_) =>
    case Encode =>
    case Reconfigure(config, rtp, dev) =>
      EntryAfterReconfigure(m, config, rtp, dev);
      StaleEntryIsRight(m, config, rtp, dev);
  }

  lemma StaleEntryIsRight(m: Machine, config: Config, rtp: nat, dev: Shared.DeviceAnswer)
    requires Invariant(m) && !EntryCurrent(m)
    requires ConfigureStream(m, config, rtp, dev).Ok?
    ensures EntryRight(m, config, rtp) <==> EntryRecovers(m, Reconfigure(config, rtp, dev))
  {
    if m.stream.transportOverhead + rtp != m.stream.overheadPerPacket {
      var m1, m3 := Stages(m, config, rtp, dev);
      ComputedEntryIsRight(m, config, rtp);
    }
  }

  // ---------------------------------------------------------------- the registration test

  /** While sending, the stream is registered exactly if Start would register it. */
  predicate RegistrationCurrent(m: Machine) {
    m.stream.sending ==> (m.stream.registered <==> Eligible(m.stream.settings, m.stream.config))
  }

  /** With the compared fields equal, a change of the DSCP flag goes unnoticed; with them changed, Reconfigure
      insists on a transport sequence number where Start may do without. */
  predicate RegistrationFollows(settings: Settings, prior: Config, config: Config) {
    if AllocationFieldsEqual(prior, config) then
      || prior.hasDscp == config.hasDscp
      || !Eligible(settings, config.(hasDscp := false))
    else
      !(settings.allocateWithoutFeedback && WantsAllocation(config) && TransportSeqNumId(config) == 0)
  }

  lemma OtherCallsKeepRegistrationCurrent(m: Machine, call: Call)
    requires RegistrationAgrees(m) && RegistrationCurrent(m)
    requires Step(m, call).Ok? && !call.Reconfigure?
    ensures RegistrationCurrent(Step(m, call).value)
  {
  }

  lemma ReconfigureKeepsRegistrationCurrentExactlyWhen(
    m: Machine, config: Config, rtp: nat, dev: Shared.DeviceAnswer)
    requires RegistrationAgrees(m) && RegistrationCurrent(m)
    requires ConfigureStream(m, config, rtp, dev).Ok?
    ensures RegistrationCurrent(ConfigureStream(m, config, rtp, dev).value) <==>
            !m.stream.sending || RegistrationFollows(m.stream.settings, m.stream.config, config)
  {
    var m1, m3 := Stages(m, config, rtp, dev);
    ObserverStageRegistration(m3, config);
  }

  /** A stale registration is put right by stopping, by the very changes of the DSCP flag that put a current one out of
      date, and by a Reconfigure with a compared field changed that would keep a current one. */
  predicate RegistrationRecovers(s: Stream, call: Call) {
    match call
    case Stop => true
    case Reconfigure(config, _, _) =>
      AllocationFieldsEqual(s.config, config) <==> !RegistrationFollows(s.settings, s.config, config)
    case _ => false
  }

  lemma ObserverStageRestoresRegistration(m: Machine, config: Config)
    requires RegistrationAgrees(m) && ObserverStage(m, config).Ok?
    requires !RegistrationCurrent(m)
    ensures RegistrationCurrent(ObserverStage(m, config).value) <==>
            (AllocationFieldsEqual(m.stream.config, config) <==>
             !RegistrationFollows(m.stream.settings, m.stream.config, config))
  {
  }

  lemma StaleRegistrationRecoversExactlyWhen(m: Machine, call: Call)
    requires Invariant(m) && !RegistrationCurrent(m)
    requires Step(m, call).Ok?
    ensures RegistrationCurrent(Step(m, call).value) <==> RegistrationRecovers(m.stream, call)
  {
    match call
    case Start(_) =>
    case Stop =>
    case SetTransportOverhead(_, _) =>
    case DeliverRtcp(_) =>
    case Adapt(_) =>
    case Encode =>
    case Reconfigure(config, rtp, dev) =>
      var m1, m3 := Stages(m, config, rtp, dev);
      ObserverStageRestoresRegistration(m3, config);
  }

  // ---------------------------------------------------------------- the frame lengths

  /** The copied frame lengths are those the encoder reports. */
  predicate FramesCopied(s: Stream) {
    s.encoder.Some? ==> s.frameLengths == GetFrameLengthRange(s.encoder.value)
  }

  /** Encoding a packet changes the report of an encoder without an adaptor, if lengths picked by a former adaptor were
      still to be taken up; only Reconfigure looks again. */
  predicate FramesComeOut(s: Stream, call: Call) {
    match call
    case Reconfigure(_, _, _) => true
    case Encode =>
      s.encoder.Some? ==>
        var speech := Core(s.encoder.value);
        s.frameLengths == if speech.adaptor.Some? then speech.profile.adaptedFrames else speech.frames.next
    case _ => FramesCopied(s)
  }

  lemma {:induction false} FramesOfCore(e: Encoder)
    ensures GetFrameLengthRange(e) == GetFrameLengthRange(Core(e))
    ensures GetFrameLengthRange(EncodePacket(e)) ==
            if Core(e).adaptor.Some? then Core(e).profile.adaptedFrames else Core(e).frames.next
  {
    if e.Speech? {
    } else {
      FramesOfCore(e.inner);
    }
  }

  lemma ReconfigureCopiesFrames(m: Machine, config: Config, rtp: nat, dev: Shared.DeviceAnswer)
    requires Invariant(m) && ConfigureStream(m, config, rtp, dev).Ok?
    ensures FramesCopied(ConfigureStream(m, config, rtp, dev).value.stream)
  {
    var m1, m3 := Stages(m, config, rtp, dev);
    ObserverStageFrame(m3, config);
    if m1.stream.encoder.Some? {
      OverheadKeepsShape(m1.stream.encoder.value, m.stream.transportOverhead + rtp);
    }
  }

  lemma FramesCopiedExactlyWhen(m: Machine, call: Call)
    requires Invariant(m) && Step(m, call).Ok?
    ensures FramesCopied(Step(m, call).value.stream) <==> FramesComeOut(m.stream, call)
  {
    match call
    case Start(_) =>
    case Stop =>
    case SetTransportOverhead(bytes, rtp) =>
      OverheadKeepsFrames(m.(stream := m.stream.(transportOverhead := bytes)), rtp);
    case DeliverRtcp(rtp) => OverheadKeepsFrames(m, rtp);
    case Adapt(frames) =>
      if m.stream.encoder.Some? {
        EncodingKeepsShape(m.stream.encoder.value, frames);
      }
    case Encode =>
      if m.stream.encoder.Some? {
        FramesOfCore(m.stream.encoder.value);
      }
    case Reconfigure(config, rtp, dev) => ReconfigureCopiesFrames(m, config, rtp, dev);
  }

  lemma OverheadKeepsFrames(m: Machine, rtp: nat)
    requires RegistrationAgrees(m) && UpdateOverheadPerPacket(m, rtp).Ok?
    ensures FramesCopied(UpdateOverheadPerPacket(m, rtp).value.stream) <==> FramesCopied(m.stream)
  {
    OverheadUpdateFrame(m, rtp);
    if m.stream.encoder.Some? {
      OverheadKeepsShape(m.stream.encoder.value, m.stream.transportOverhead + rtp);
    }
  }
}
