/** The frame lengths and bitrates a stream copies from its encoder, foretold before a Reconfigure from the stream and
    the new configuration. */
module SendStreamRanges {
  import opened Basics
  import opened AudioEncoders
  import opened SendStream
  import opened SendStreamInvariants
  import opened SendStreamRates
  import Shared = AudioState

  /** The frame lengths a speech encoder reports after being asked for an adaptor. */
  function FramesWith(speech: Encoder, adaptorConfig: Option<string>): Option<FrameRange>
    requires speech.Speech?
  {
    if Accepted(speech.profile, adaptorConfig).Some? then speech.profile.adaptedFrames else speech.frames.current
  }

  /** What the encoder reports now, which may not be what was copied from it. */
  function FramesReported(s: Stream): Option<FrameRange> {
    if s.encoder.Some? then GetFrameLengthRange(s.encoder.value) else s.frameLengths
  }

  /** A new encoder brings the frame lengths of its format; the live one changes them with its adaptor, if the adaptor
      change gets through, and otherwise tells those of the moment. */
  function FramesAfter(s: Stream, config: Config): Option<FrameRange> {
    if config.codec.None? then FramesReported(s)
    else if NeedsNewEncoder(s.config, config) then
      var format := config.codec.value.format;
      if format !in s.settings.factory then FramesReported(s)
      else
        var profile := s.settings.factory[format];
        if Accepted(profile, config.adaptorConfig).Some? then profile.adaptedFrames else profile.plainFrames
    else if s.encoder.Some? && config.adaptorConfig != s.config.adaptorConfig && AdaptorReachable(s.encoder.value) then
      FramesWith(Core(s.encoder.value), config.adaptorConfig)
    else FramesReported(s)
  }

  /** A new encoder tells its bitrates unless it is wrapped; on the live one a comfort-noise change hides them or shows
      those of the encoder one layer down. */
  function RatesAfter(s: Stream, config: Config): Option<RateRange> {
    if config.codec.None? then s.bitrateRange
    else
      var spec := config.codec.value;
      if NeedsNewEncoder(s.config, config) then
        if spec.format !in s.settings.factory then s.bitrateRange
        else if spec.cngPayloadType.None? && spec.redPayloadType.None? then s.settings.factory[spec.format].bitrates
        else None
      else if s.encoder.None? || spec.cngPayloadType == s.config.codec.value.cngPayloadType then s.bitrateRange
      else if spec.cngPayloadType.Some? then None
      else GetBitrateRange(Unwrapped(s.encoder.value))
  }

  // ---------------------------------------------------------------- why

  lemma {:induction false} EnableChangesFrames(e: Encoder, config: string)
    ensures GetFrameLengthRange(EnableAudioNetworkAdaptor(e, config).0) ==
            if AdaptorReachable(e) then FramesWith(Core(e), Some(config)) else GetFrameLengthRange(e)
  {
    match e
    case Speech(_, _, _, _) =>
    case Cng(_, _) =>
    case Red(_, _, inner) => EnableChangesFrames(inner, config);
  }

  lemma {:induction false} DisableChangesFrames(e: Encoder)
    ensures GetFrameLengthRange(DisableAudioNetworkAdaptor(e)) ==
            if AdaptorReachable(e) then FramesWith(Core(e), None) else GetFrameLengthRange(e)
  {
    match e
    case Speech(_, _, _, _) =>
    case Cng(_, _) =>
    case Red(_, _, inner) => DisableChangesFrames(inner);
  }

  lemma AdaptorChangesFrames(e: Encoder, prior: Option<string>, next: Option<string>, overhead: nat)
    ensures GetFrameLengthRange(ReconfigureAdaptor(e, prior, next, overhead)) ==
            if next != prior && AdaptorReachable(e) then FramesWith(Core(e), next) else GetFrameLengthRange(e)
  {
    DisableChangesFrames(e);
    if next.Some? {
      EnableChangesFrames(e, next.value);
      OverheadKeepsShape(EnableAudioNetworkAdaptor(e, next.value).0, overhead);
    }
  }

  lemma RatesAreKept(e: Encoder, bytes: nat, config: string)
    ensures GetBitrateRange(OnReceivedOverhead(e, bytes)) == GetBitrateRange(e)
    ensures GetBitrateRange(DisableAudioNetworkAdaptor(e)) == GetBitrateRange(e)
    ensures GetBitrateRange(EnableAudioNetworkAdaptor(e, config).0) == GetBitrateRange(e)
  {
  }

  /** An adaptor change leaves the bitrates of the encoder and of the one below alone. */
  lemma AdaptorKeepsRates(e: Encoder, prior: Option<string>, next: Option<string>, overhead: nat)
    ensures var e' := ReconfigureAdaptor(e, prior, next, overhead);
            && GetBitrateRange(e') == GetBitrateRange(e)
            && GetBitrateRange(Unwrapped(e')) == GetBitrateRange(Unwrapped(e))
  {
    var asked := if next.Some? then next.value else "";
    RatesAreKept(e, overhead, asked);
    if e.Red? {
      RatesAreKept(e.inner, overhead, asked);
      RatesAreKept(EnableAudioNetworkAdaptor(e.inner, asked).0, overhead, asked);
    }
  }

  lemma CngChangesRanges(e: Encoder, prior: Option<int>, next: Option<int>)
    requires ReconfigureCng(Some(e), prior, next).Ok?
    ensures var e' := ReconfigureCng(Some(e), prior, next).value;
            && e'.Some?
            && GetFrameLengthRange(e'.value) == GetFrameLengthRange(e)
            && GetBitrateRange(e'.value) ==
               if next == prior then GetBitrateRange(e)
               else if next.Some? then None
               else GetBitrateRange(Unwrapped(e))
  {
  }

  lemma NewEncoderRanges(profile: Profile, adaptorConfig: Option<string>, spec: CodecSpec, overhead: nat)
    ensures var e := KnowingOverhead(Stack(profile, adaptorConfig, spec), overhead);
            && GetFrameLengthRange(e) ==
               (if Accepted(profile, adaptorConfig).Some? then profile.adaptedFrames else profile.plainFrames)
            && GetBitrateRange(e) ==
               if spec.cngPayloadType.None? && spec.redPayloadType.None? then profile.bitrates else None
  {
    var speech := SpeechEncoder(profile, adaptorConfig);
    assert GetFrameLengthRange(WrapCng(speech, spec.cngPayloadType)) == GetFrameLengthRange(speech);
    OverheadKeepsShape(Stack(profile, adaptorConfig, spec), overhead);
  }

  /** Reconfigure refreshes the ranges to what was foretold. */
  lemma RangesAfterReconfigure(m: Machine, config: Config, dev: Shared.DeviceAnswer)
    requires TracksEncoder(m.stream)
    requires ReconfigureSendCodec(m, config, dev).Ok?
    ensures var s' := RefreshRanges(ReconfigureSendCodec(m, config, dev).value.stream);
            s'.frameLengths == FramesAfter(m.stream, config) && s'.bitrateRange == RatesAfter(m.stream, config)
  {
    var s := m.stream;
    if config.codec.None? {
    } else if NeedsNewEncoder(s.config, config) {
      if config.codec.value.format in s.settings.factory {
        NewEncoderRanges(s.settings.factory[config.codec.value.format], config.adaptorConfig, config.codec.value,
                         s.overheadPerPacket);
      }
    } else if s.encoder.Some? {
      InPlaceRanges(s.encoder.value, s.config, config, s.overheadPerPacket);
    }
  }

  lemma InPlaceRanges(e: Encoder, prior: Config, config: Config, overhead: nat)
    requires prior.codec.Some? && config.codec.Some?
    requires var e1 := ReconfigureAdaptor(e, prior.adaptorConfig, config.adaptorConfig, overhead);
             ReconfigureCng(Some(e1), prior.codec.value.cngPayloadType, config.codec.value.cngPayloadType).Ok?
    ensures var e1 := ReconfigureAdaptor(e, prior.adaptorConfig, config.adaptorConfig, overhead);
            var e2 :=
              ReconfigureCng(Some(e1), prior.codec.value.cngPayloadType, config.codec.value.cngPayloadType).value;
            && e2.Some?
            && GetFrameLengthRange(e2.value) ==
               (if config.adaptorConfig != prior.adaptorConfig && AdaptorReachable(e)
                then FramesWith(Core(e), config.adaptorConfig)
                else GetFrameLengthRange(e))
            && GetBitrateRange(e2.value) ==
               (if config.codec.value.cngPayloadType == prior.codec.value.cngPayloadType then GetBitrateRange(e)
                else if config.codec.value.cngPayloadType.Some? then None
                else GetBitrateRange(Unwrapped(e)))
  {
    var e1 := ReconfigureAdaptor(e, prior.adaptorConfig, config.adaptorConfig, overhead);
    AdaptorChangesFrames(e, prior.adaptorConfig, config.adaptorConfig, overhead);
    AdaptorKeepsRates(e, prior.adaptorConfig, config.adaptorConfig, overhead);
    CngChangesRanges(e1, prior.codec.value.cngPayloadType, config.codec.value.cngPayloadType);
  }

  // ---------------------------------------------------------------- bitrates from ranges

  /** Whether other ranges lead to the same bitrates: with the fixed overhead those of the payload decide; otherwise the
      overhead of the longest frames may make up for a difference in the lower, that of the shortest in the upper. */
  predicate SameBitrates(settings: Settings, config: Config, overhead: nat,
                         frames: Option<FrameRange>, rates: Option<RateRange>,
                         frames': Option<FrameRange>, rates': Option<RateRange>)
  {
    && 0 <= config.minBitrateBps && 0 <= config.maxBitrateBps
    && var p, p' := PayloadRates(settings, config, rates), PayloadRates(settings, config, rates');
    if settings.legacyOverhead then p' == p
    else
      && frames.Some? && frames'.Some? && p'.min <= p'.max
      && var longest, longest' := frames.value.longest, frames'.value.longest;
         var shortest, shortest' := frames.value.shortest, frames'.value.shortest;
         && TotalRate(p'.min, overhead, longest') == TotalRate(p.min, overhead, longest)
         && TotalRate(p'.max, overhead, shortest') == TotalRate(p.max, overhead, shortest)
         && (settings.enablePriorityBitrate && settings.priorityBitrateRaw.None? ==>
               Rate(overhead, longest') == Rate(overhead, longest))
  }

  lemma SameEntryExactlyWhen(settings: Settings, config: Config, overhead: nat,
                             frames: Option<FrameRange>, rates: Option<RateRange>,
                             frames': Option<FrameRange>, rates': Option<RateRange>)
    requires Entry(settings, config, overhead, frames, rates).Some?
    ensures Entry(settings, config, overhead, frames', rates') == Entry(settings, config, overhead, frames, rates) <==>
            SameBitrates(settings, config, overhead, frames, rates, frames', rates')
  {
  }
}
