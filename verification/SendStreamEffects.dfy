/** What the calls on a send stream bring about, told on the fields of configurations, settings and streams. */
module SendStreamEffects {
  import opened Basics
  import opened RtpExtensions
  import opened AudioEncoders
  import opened SendStream
  import opened SendStreamInvariants
  import opened SendStreamRates
  import opened SendStreamRanges
  import opened SendStreamCaches
  import opened SendStreamEncoder
  import opened SendStreamChecks
  import Shared = AudioState

  // ---------------------------------------------------------------- header extension ids

  /** The id of an extension is the one at the last position with its URI, 0 if there is none. */
  lemma {:induction false} LastIdIsAtTheLastPosition(extensions: seq<RtpExtension>, uri: string)
    ensures (forall i :: 0 <= i < |extensions| ==> extensions[i].uri != uri) ==> LastId(extensions, uri) == 0
    ensures forall i :: 0 <= i < |extensions| && extensions[i].uri == uri && NoneAfter(extensions, i, uri) ==>
              LastId(extensions, uri) == extensions[i].id
  {
    if extensions == [] {
    } else {
      var last := |extensions| - 1;
      var front := extensions[..last];
      LastIdIsAtTheLastPosition(front, uri);
      assert forall i :: 0 <= i < last ==> front[i] == extensions[i];
      forall i | 0 <= i < |extensions| && extensions[i].uri == uri && NoneAfter(extensions, i, uri)
        ensures LastId(extensions, uri) == extensions[i].id
      {
        if i < last {
          assert NoneAfter(front, i, uri);
        }
      }
    }
  }

  predicate NoneAfter(extensions: seq<RtpExtension>, i: nat, uri: string) {
    forall j :: i < j < |extensions| ==> extensions[j].uri != uri
  }

  /** The transport sequence number is the extension of that name. */
  lemma TransportSequenceNumberId(config: Config)
    ensures TransportSeqNumId(config) ==
            LastId(config.extensions, "http://www.ietf.org/id/draft-holmer-rmcat-transport-wide-cc-extensions-01")
  {
  }

  // ---------------------------------------------------------------- the allocator entry

  /** The lower payload bitrate: the encoder's if it reports any, else the field trial's, else the configured one. */
  function LowestPayload(settings: Settings, config: Config, rates: Option<RateRange>): int {
    match rates
    case Some(range) => range.min
    case None =>
      match settings.minBitrate
      case Some(bps) => bps
      case None => config.minBitrateBps
  }

  function HighestPayload(settings: Settings, config: Config, rates: Option<RateRange>): int {
    match rates
    case Some(range) => range.max
    case None =>
      match settings.maxBitrate
      case Some(bps) => bps
      case None => config.maxBitrateBps
  }

  /** Bits per second spent on the overhead of one packet per frame. */
  function OverheadRate(overhead: nat, micros: nat): nat
    requires 0 < micros
  {
    8 * overhead * 1_000_000 / micros
  }

  /** Constraints exist iff both limits are configured, the payload bitrates are in order, and, unless the overhead is
      fixed, frame lengths are known; they add the overhead of the longest frames below and of the shortest above, or on
      both sides the fixed one of 50 bytes every 60 ms. */
  lemma ConstraintsOnFields(settings: Settings, config: Config, overhead: nat,
                            frames: Option<FrameRange>, rates: Option<RateRange>)
    ensures var c := GetMinMaxBitrateConstraints(settings, config, overhead, frames, rates);
            var low, high := LowestPayload(settings, config, rates), HighestPayload(settings, config, rates);
            && (c.Some? <==> && 0 <= config.minBitrateBps && 0 <= config.maxBitrateBps && low <= high
                             && (settings.legacyOverhead || frames.Some?))
            && (c.Some? && settings.legacyOverhead ==> c.value == RateRange(low + 6_666, high + 6_666))
            && (c.Some? && !settings.legacyOverhead ==>
                  && c.value.min == low + OverheadRate(overhead, frames.value.longest)
                  && c.value.max == high + OverheadRate(overhead, frames.value.shortest))
  {
  }

  /** The rest of an entry: the minimum is enforced, nothing is padded; the priority bitrate is off, or given as it is
      to be, or given for the payload and increased by the overhead of the longest frames, the fixed one being 50 bytes
      every 20 ms; the priority is that of a field trial or the configured one. */
  lemma EntryOnFields(settings: Settings, config: Config, overhead: nat,
                      frames: Option<FrameRange>, rates: Option<RateRange>)
    ensures var c := GetMinMaxBitrateConstraints(settings, config, overhead, frames, rates);
            var entry := Entry(settings, config, overhead, frames, rates);
            && (entry.Some? <==> c.Some?)
            && (entry.Some? ==>
                  && entry.value.minBitrateBps == c.value.min && entry.value.maxBitrateBps == c.value.max
                  && entry.value.enforceMinBitrate && entry.value.padUpBitrateBps == 0
                  && (!settings.enablePriorityBitrate ==> entry.value.priorityBitrateBps == 0)
                  && (settings.enablePriorityBitrate && settings.priorityBitrateRaw.Some? ==>
                        entry.value.priorityBitrateBps == settings.priorityBitrateRaw.value)
                  && (settings.enablePriorityBitrate && settings.priorityBitrateRaw.None? ==>
                        entry.value.priorityBitrateBps ==
                        settings.priorityBitrate +
                        if settings.legacyOverhead then 20_000
                        else OverheadRate(overhead, frames.value.longest))
                  && (settings.bitratePriority.Some? ==>
                        entry.value.bitratePriority == settings.bitratePriority.value)
                  && (settings.bitratePriority.None? ==> entry.value.bitratePriority == config.bitratePriority))
  {
  }

  /** Of a configuration only the limits and the priority matter to the entry. */
  lemma EntryReadsThreeFields(settings: Settings, a: Config, b: Config, overhead: nat,
                              frames: Option<FrameRange>, rates: Option<RateRange>)
    requires a.minBitrateBps == b.minBitrateBps && a.maxBitrateBps == b.maxBitrateBps
    requires a.bitratePriority == b.bitratePriority
    ensures Entry(settings, a, overhead, frames, rates) == Entry(settings, b, overhead, frames, rates)
  {
  }

  // ---------------------------------------------------------------- Start and Stop

  /** What Start asks for, on fields. */
  predicate IsEligible(s: Stream) {
    && !s.config.hasDscp
    && s.config.minBitrateBps != -1
    && s.config.maxBitrateBps != -1
    && (s.settings.allocateWithoutFeedback || TransportSeqNumId(s.config) != 0)
  }

  /** Start registers an eligible stream with the entry its state calls for and has audio paced, and announces the
      stream; it does nothing to a stream that sends. */
  lemma StartEffect(m: Machine, dev: Shared.DeviceAnswer)
    requires Invariant(m) && StartSending(m, dev).Ok?
    ensures var m', eligible := StartSending(m, dev).value, IsEligible(m.stream);
            if m.stream.sending then m' == m
            else
              && m'.stream == m.stream.(sending := true, registered := eligible, partOfAllocation := eligible)
              && (eligible ==> CurrentEntry(m.stream).Some? &&
                               m'.allocator == m.allocator[m.id := CurrentEntry(m.stream).value] && m'.pacesAudio)
              && (!eligible ==> m'.allocator == m.allocator && m'.pacesAudio == m.pacesAudio)
              && m.id in m'.audio.sending
              && m'.audio.sending[m.id] ==
                 Shared.StreamProperties(m.stream.encoderSampleRateHz, m.stream.encoderChannels)
  {
  }

  /** Start passes unless an eligible stream lacks what its entry needs; a stream with a limit unset is not eligible. */
  lemma StartPassesOnFields(m: Machine, dev: Shared.DeviceAnswer)
    ensures StartSending(m, dev).Ok? <==>
            (!m.stream.sending && IsEligible(m.stream) ==> CurrentEntry(m.stream).Some?)
  {
  }

  /** A stream that was never configured is not registered. */
  lemma NewStreamIsNotAllocated(m: Machine, dev: Shared.DeviceAnswer)
    requires Invariant(m) && m.stream == NewStream(m.stream.settings)
    ensures StartSending(m, dev).Ok? && !StartSending(m, dev).value.stream.registered
  {
  }

  /** Stop takes the stream out of the allocator and of the audio state, and nothing else; it does nothing to a stream
      that does not send. */
  lemma StopEffect(m: Machine)
    requires Invariant(m)
    ensures StopSending(m).Ok?
    ensures var m' := StopSending(m).value;
            if !m.stream.sending then m' == m
            else
              && m'.stream == m.stream.(sending := false, registered := false)
              && m'.allocator == m.allocator - {m.id} && m'.pacesAudio == m.pacesAudio && m.id !in m'.audio.sending
  {
  }

  // ---------------------------------------------------------------- overhead

  /** A changed overhead is noted, told to the encoder and, for a registered stream, to the allocator; nobody hears of
      an unchanged one. */
  lemma OverheadEffect(m: Machine, bytes: nat, rtp: nat)
    requires RegistrationAgrees(m) && Step(m, SetTransportOverhead(bytes, rtp)).Ok?
    ensures var m' := Step(m, SetTransportOverhead(bytes, rtp)).value;
            var s := m.stream;
            && m'.stream == s.(transportOverhead := bytes, overheadPerPacket := bytes + rtp,
                               encoder := m'.stream.encoder)
            && m'.stream.encoder == (if s.encoder.None? || bytes + rtp == s.overheadPerPacket then s.encoder
                                     else Some(OnReceivedOverhead(s.encoder.value, bytes + rtp)))
            && m'.audio == m.audio && m'.pacesAudio == m.pacesAudio
            && (!s.registered || bytes + rtp == s.overheadPerPacket ==> m'.allocator == m.allocator)
            && (s.registered && bytes + rtp != s.overheadPerPacket ==>
                  var entry := Entry(s.settings, s.config, bytes + rtp, s.frameLengths, s.bitrateRange);
                  entry.Some? && m'.allocator == m.allocator[m.id := entry.value])
  {
  }

  /** RTCP may have changed the size of RTP headers: the same with the transport overhead as it is. */
  lemma DeliverRtcpIsAnOverheadUpdate(m: Machine, rtp: nat)
    ensures Step(m, DeliverRtcp(rtp)) == Step(m, SetTransportOverhead(m.stream.transportOverhead, rtp))
  {
  }

  // ---------------------------------------------------------------- Reconfigure and the allocator

  /** One of the five fields that make Reconfigure look at the allocator again differs. */
  predicate SomeAllocationFieldDiffers(a: Config, b: Config) {
    || a.minBitrateBps != b.minBitrateBps
    || a.maxBitrateBps != b.maxBitrateBps
    || a.bitratePriority != b.bitratePriority
    || TransportSeqNumId(a) != TransportSeqNumId(b)
    || a.adaptorConfig != b.adaptorConfig
  }

  predicate AsksForAllocation(config: Config) {
    !config.hasDscp && config.minBitrateBps != -1 && config.maxBitrateBps != -1 && TransportSeqNumId(config) != 0
  }

  /** What the stream says about ranges once it is reconfigured. */
  predicate RangesRefreshed(s: Stream) {
    s.encoder.Some? ==>
      s.frameLengths == GetFrameLengthRange(s.encoder.value) && s.bitrateRange == GetBitrateRange(s.encoder.value)
  }

  /** The observer stage, on fields. */
  lemma ObserverStageEffect(m: Machine, config: Config)
    requires RegistrationAgrees(m) && ObserverStage(m, config).Ok?
    ensures var m', s := ObserverStage(m, config).value, m.stream;
            var entry := Entry(s.settings, config, s.overheadPerPacket, s.frameLengths, s.bitrateRange);
            if !s.sending || !SomeAllocationFieldDiffers(s.config, config) then
              m' == m.(stream := s.(config := config))
            else if AsksForAllocation(config) then
              && entry.Some? && m'.pacesAudio
              && m'.stream == s.(config := config, registered := true, partOfAllocation := true)
              && m'.allocator == m.allocator[m.id := entry.value]
            else
              && !m'.pacesAudio
              && m'.stream == s.(config := config, registered := false, partOfAllocation := false)
              && m'.allocator == m.allocator - {m.id}
  {
    var limited := m.stream.config.(minBitrateBps := config.minBitrateBps, maxBitrateBps := config.maxBitrateBps,
                                    bitratePriority := config.bitratePriority);
    EntryReadsThreeFields(m.stream.settings, limited, config, m.stream.overheadPerPacket,
                          m.stream.frameLengths, m.stream.bitrateRange);
  }

  /** Reconfigure on a sending stream. If one of the five fields differs, the allocator afterwards holds the entry of
      the new configuration, the new overhead and the ranges the encoder then reports, or nothing if the new
      configuration does not ask for allocation. If all are equal, only a changed overhead reaches the allocator. */
  lemma ReconfigureEffectOnAllocator(m: Machine, config: Config, rtp: nat, dev: Shared.DeviceAnswer)
    requires Invariant(m) && m.stream.sending && ConfigureStream(m, config, rtp, dev).Ok?
    ensures var m' := ConfigureStream(m, config, rtp, dev).value;
            var s, s', overhead := m.stream, m'.stream, m.stream.transportOverhead + rtp;
            && s'.config == config && s'.overheadPerPacket == overhead && s'.sending
            && RangesRefreshed(s')
            && (SomeAllocationFieldDiffers(s.config, config) && AsksForAllocation(config) ==>
                  && s'.registered && s'.partOfAllocation && m'.pacesAudio && m.id in m'.allocator
                  && Some(m'.allocator[m.id]) == Entry(s.settings, config, overhead, s'.frameLengths, s'.bitrateRange))
            && (SomeAllocationFieldDiffers(s.config, config) && !AsksForAllocation(config) ==>
                  !s'.registered && !s'.partOfAllocation && !m'.pacesAudio && m.id !in m'.allocator)
            && (!SomeAllocationFieldDiffers(s.config, config) ==>
                  && s'.registered == s.registered && s'.partOfAllocation == s.partOfAllocation
                  && m'.pacesAudio == m.pacesAudio
                  && (overhead == s.overheadPerPacket || !s.registered ==> m'.allocator == m.allocator)
                  && (overhead != s.overheadPerPacket && s.registered ==>
                        var entry := Entry(s.settings, s.config, overhead, s.frameLengths, s.bitrateRange);
                        entry.Some? && m'.allocator == m.allocator[m.id := entry.value]))
  {
    var m3 := BeforeObserver(m, config, rtp, dev);
    ObserverStageEffect(m3, config);
  }

  /** Reconfigure passes exactly if the codec change does and allocator entries can be computed where they are needed:
      for a changed overhead while registered, and for a configuration that newly asks for allocation while sending. */
  lemma ReconfigurePassesOnFields(m: Machine, config: Config, rtp: nat, dev: Shared.DeviceAnswer)
    requires Invariant(m)
    ensures var s, overhead := m.stream, m.stream.transportOverhead + rtp;
            ConfigureStream(m, config, rtp, dev).Ok? <==>
            && ReconfigureSendCodec(m, config, dev).Ok?
            && (s.registered && overhead != s.overheadPerPacket ==>
                  Entry(s.settings, s.config, overhead, s.frameLengths, s.bitrateRange).Some?)
            && (s.sending && SomeAllocationFieldDiffers(s.config, config) && AsksForAllocation(config) ==>
                  Entry(s.settings, config, overhead, FramesAfter(s, config), RatesAfter(s, config)).Some?)
  {
    var s, overhead := m.stream, m.stream.transportOverhead + rtp;
    ConfigurePassesExactlyWhen(m, config, rtp, dev);
    CodecPassesExactlyWhen(m, config, dev);
    EntryExists(s.settings, s.config, overhead, s.frameLengths, s.bitrateRange);
    EntryExists(s.settings, config, overhead, FramesAfter(s, config), RatesAfter(s, config));
  }

  /** On a stream that does not send, Reconfigure leaves allocator and pacing alone. */
  lemma ReconfigureIdleEffect(m: Machine, config: Config, rtp: nat, dev: Shared.DeviceAnswer)
    requires Invariant(m) && !m.stream.sending && ConfigureStream(m, config, rtp, dev).Ok?
    ensures var m' := ConfigureStream(m, config, rtp, dev).value;
            && m'.allocator == m.allocator && m'.pacesAudio == m.pacesAudio && m'.audio == m.audio
            && m'.stream.config == config && m'.stream.overheadPerPacket == m.stream.transportOverhead + rtp
            && !m'.stream.sending && !m'.stream.registered && RangesRefreshed(m'.stream)
  {
    var m3 := BeforeObserver(m, config, rtp, dev);
    ObserverStageEffect(m3, config);
    CodecChangeOfIdleStream(m, config, dev);
  }

  lemma CodecChangeOfIdleStream(m: Machine, config: Config, dev: Shared.DeviceAnswer)
    requires !m.stream.sending && ReconfigureSendCodec(m, config, dev).Ok?
    ensures ReconfigureSendCodec(m, config, dev).value.audio == m.audio
  {
  }

  /** The stream the observer stage meets. */
  lemma BeforeObserver(m: Machine, config: Config, rtp: nat, dev: Shared.DeviceAnswer) returns (m3: Machine)
    requires Invariant(m) && ConfigureStream(m, config, rtp, dev).Ok?
    ensures ConfigureStream(m, config, rtp, dev) == ObserverStage(m3, config) && RegistrationAgrees(m3)
    ensures var s, s3, overhead := m.stream, m3.stream, m.stream.transportOverhead + rtp;
            && m3.id == m.id && m3.pacesAudio == m.pacesAudio
            && ReconfigureSendCodec(m, config, dev).Ok? && m3.audio == ReconfigureSendCodec(m, config, dev).value.audio
            && s3.settings == s.settings && s3.config == s.config && s3.sending == s.sending
            && s3.registered == s.registered && s3.partOfAllocation == s.partOfAllocation
            && s3.overheadPerPacket == overhead && RangesRefreshed(s3)
            && (overhead == s.overheadPerPacket || !s.registered ==> m3.allocator == m.allocator)
            && (overhead != s.overheadPerPacket && s.registered ==>
                  var entry := Entry(s.settings, s.config, overhead, s.frameLengths, s.bitrateRange);
                  entry.Some? && m3.allocator == m.allocator[m.id := entry.value])
  {
    var m1 := ReconfigureSendCodec(m, config, dev).value;
    CodecChangeFrame(m, config, dev);
    var m2 := UpdateOverheadPerPacket(m1, rtp).value;
    OverheadUpdateFrame(m1, rtp);
    m3 := m2.(stream := RefreshRanges(m2.stream));
    AllocatorAfterOverhead(m1, rtp);
  }

  lemma AllocatorAfterOverhead(m: Machine, rtp: nat)
    requires RegistrationAgrees(m) && UpdateOverheadPerPacket(m, rtp).Ok?
    ensures var m', s, overhead := UpdateOverheadPerPacket(m, rtp).value, m.stream, m.stream.transportOverhead + rtp;
            && (overhead == s.overheadPerPacket || !s.registered ==> m'.allocator == m.allocator)
            && (overhead != s.overheadPerPacket && s.registered ==>
                  var entry := Entry(s.settings, s.config, overhead, s.frameLengths, s.bitrateRange);
                  entry.Some? && m'.allocator == m.allocator[m.id := entry.value])
  {
  }

  // ---------------------------------------------------------------- Reconfigure and the encoder

  /** There was no codec, or a field differs that the live encoder cannot follow. */
  predicate CallsForNewEncoder(prior: Option<CodecSpec>, spec: CodecSpec) {
    match prior
    case None => true
    case Some(before) =>
      || before.format != spec.format
      || before.payloadType != spec.payloadType
      || before.redPayloadType != spec.redPayloadType
  }

  /** A new encoder replaces whatever there was, and its rate and channels are stored and, while sending, announced; for
      a format the factory does not know nothing happens. */
  lemma NewEncoderEffect(m: Machine, config: Config, dev: Shared.DeviceAnswer)
    requires config.codec.Some? && CallsForNewEncoder(m.stream.config.codec, config.codec.value)
    requires ReconfigureSendCodec(m, config, dev).Ok?
    ensures var m', s := ReconfigureSendCodec(m, config, dev).value, m.stream;
            if config.codec.value.format !in s.settings.factory then m' == m
            else
              && m'.stream.encoder == FreshEncoder(s.settings, config, s.overheadPerPacket)
              && m'.stream.encoder.Some?
              && var e := m'.stream.encoder.value;
                 && m'.stream == s.(encoder := Some(e), encoderSampleRateHz := SampleRateHz(e),
                                    encoderChannels := NumChannels(e))
                 && (s.sending ==> m.id in m'.audio.sending &&
                                   m'.audio.sending[m.id] == Shared.StreamProperties(SampleRateHz(e), NumChannels(e)))
  {
  }

  /** Otherwise the live encoder is kept: the speech encoder inside is the old one but for the adaptor a changed adaptor
      configuration gives it, if that gets through, and the properties stored stay. */
  lemma LiveEncoderEffect(m: Machine, config: Config, dev: Shared.DeviceAnswer)
    requires config.codec.Some? && !CallsForNewEncoder(m.stream.config.codec, config.codec.value)
    requires ReconfigureSendCodec(m, config, dev).Ok?
    ensures var m', s := ReconfigureSendCodec(m, config, dev).value, m.stream;
            && m' == m.(stream := s.(encoder := m'.stream.encoder))
            && (s.encoder.None? <==> m'.stream.encoder.None?)
            && (s.encoder.Some? ==>
                  var before, after := Core(s.encoder.value), Core(m'.stream.encoder.value);
                  && after == before.(adaptor := after.adaptor)
                  && after.adaptor ==
                     if config.adaptorConfig == s.config.adaptorConfig || !AdaptorReachable(s.encoder.value)
                     then before.adaptor
                     else if config.adaptorConfig.Some? && config.adaptorConfig.value in before.profile.accepts
                     then Some(Adaptor(config.adaptorConfig.value,
                                       if 0 < s.overheadPerPacket then Some(s.overheadPerPacket) else None))
                     else None)
  {
    var s := m.stream;
    if s.encoder.Some? {
      var e := s.encoder.value;
      var e1 := ReconfigureAdaptor(e, s.config.adaptorConfig, config.adaptorConfig, s.overheadPerPacket);
      AdaptorReachesCore(e, s.config.adaptorConfig, config.adaptorConfig, s.overheadPerPacket);
      CoreUnderCng(e1, s.config.codec.value.cngPayloadType, config.codec.value.cngPayloadType);
    }
  }

  lemma CoreUnderCng(e: Encoder, prior: Option<int>, next: Option<int>)
    requires ReconfigureCng(Some(e), prior, next).Ok?
    ensures ReconfigureCng(Some(e), prior, next).value.Some?
    ensures Core(ReconfigureCng(Some(e), prior, next).value.value) == Core(e)
  {
  }

  /** Taking the codec away is refused; leaving it out of the first configurations does nothing. */
  lemma NoCodecEffect(m: Machine, config: Config, dev: Shared.DeviceAnswer)
    requires config.codec.None?
    ensures ReconfigureSendCodec(m, config, dev).Ok? <==> m.stream.config.codec.None?
    ensures m.stream.config.codec.None? ==> ReconfigureSendCodec(m, config, dev).value == m
  {
  }
}
