/** One audio send stream, as values: how it applies a new configuration to a live encoder and how it keeps
    its entry in the bitrate allocator. */
module SendStream {
  import opened Basics
  import opened RtpExtensions
  import opened AudioEncoders
  import Shared = AudioState

  // ---------------------------------------------------------------- data

  datatype CodecSpec = CodecSpec(
    payloadType: int,
    format: SdpAudioFormat,
    nackEnabled: bool,
    enableNonSenderRtt: bool,
    cngPayloadType: Option<int>,
    redPayloadType: Option<int>,
    targetBitrateBps: Option<int>)

  datatype Config = Config(
    minBitrateBps: int,
    maxBitrateBps: int,
    bitratePriority: real,
    hasDscp: bool,
    adaptorConfig: Option<string>,
    codec: Option<CodecSpec>,
    extensions: seq<RtpExtension>)

  const DEFAULT_CONFIG := Config(-1, -1, 1.0, false, None, None, [])

  /** Fixed for the life of a stream: field trials and the encoder factory. */
  datatype Settings = Settings(
    allocateWithoutFeedback: bool,
    legacyOverhead: bool,
    enablePriorityBitrate: bool,
    minBitrate: Option<nat>,
    maxBitrate: Option<nat>,
    priorityBitrate: nat,
    priorityBitrateRaw: Option<nat>,
    bitratePriority: Option<real>,
    factory: map<SdpAudioFormat, Profile>)

  /** What the bitrate allocator holds for one observer. */
  datatype AllocationConfig = AllocationConfig(
    minBitrateBps: nat,
    maxBitrateBps: nat,
    padUpBitrateBps: nat,
    priorityBitrateBps: nat,
    enforceMinBitrate: bool,
    bitratePriority: real)

  datatype Stream = Stream(
    settings: Settings,
    config: Config,
    sending: bool,
    registered: bool,
    transportOverhead: nat,
    overheadPerPacket: nat,
    frameLengths: Option<FrameRange>,
    bitrateRange: Option<RateRange>,
    encoderSampleRateHz: int,
    encoderChannels: nat,
    encoder: Option<Encoder>,
    partOfAllocation: bool)

  /** A stream together with everything it shares with other streams. */
  datatype Machine = Machine(
    id: StreamId,
    stream: Stream,
    audio: Shared.Audio,
    allocator: map<StreamId, AllocationConfig>,
    pacesAudio: bool)

  /** The calls a client makes, and what happens to the encoder between them: its adaptor picks frame lengths, and it
      encodes packets. The overhead of the RTP module and the answer of the audio device at the time of the call come
      from outside. */
  datatype Call =
    | Start(dev: Shared.DeviceAnswer)
    | Stop
    | Reconfigure(config: Config, rtpOverhead: nat, dev: Shared.DeviceAnswer)
    | SetTransportOverhead(bytes: nat, rtpOverhead: nat)
    | DeliverRtcp(rtpOverhead: nat)
    | Adapt(frames: FrameRange)
    | Encode

  function NewStream(settings: Settings): Stream {
    Stream(settings, DEFAULT_CONFIG, false, false, 0, 0, None, None, 0, 0, None, false)
  }

  // ---------------------------------------------------------------- header extension ids

  /** The id of the last extension with this URI, 0 if there is none. */
  function LastId(extensions: seq<RtpExtension>, uri: string): int {
    if extensions == [] then 0
    else
      var last := extensions[|extensions| - 1];
      if last.uri == uri then last.id else LastId(extensions[..|extensions| - 1], uri)
  }

  function TransportSeqNumId(config: Config): int {
    LastId(config.extensions, TRANSPORT_SEQUENCE_NUMBER_URI)
  }

  // ---------------------------------------------------------------- rates

  /** DataSize / TimeDelta: bytes per microsecond-counted duration, in truncated bits per second. */
  function Rate(bytes: nat, micros: nat): nat
    requires 0 < micros
  {
    bytes * 8_000_000 / micros
  }

  const LEGACY_OVERHEAD_BYTES: nat := 20 + 8 + 10 + 12

  /** The payload bitrates before overhead: the configured ones, overridden by field trials and then by the
      range the encoder reports. */
  function PayloadRates(settings: Settings, config: Config, bitrates: Option<RateRange>): RateRange
    requires 0 <= config.minBitrateBps && 0 <= config.maxBitrateBps
  {
    if bitrates.Some? then bitrates.value
    else
      RateRange(if settings.minBitrate.Some? then settings.minBitrate.value else config.minBitrateBps,
                if settings.maxBitrate.Some? then settings.maxBitrate.value else config.maxBitrateBps)
  }

  function GetMinMaxBitrateConstraints(
    settings: Settings, config: Config, overhead: nat,
    frames: Option<FrameRange>, bitrates: Option<RateRange>): Option<RateRange>
  {
    if config.minBitrateBps < 0 || config.maxBitrateBps < 0 then None
    else
      var c := PayloadRates(settings, config, bitrates);
      if c.max < c.min then None
      else if settings.legacyOverhead then
        var o := Rate(LEGACY_OVERHEAD_BYTES, 60_000);
        Some(RateRange(c.min + o, c.max + o))
      else if frames.None? then None
      else
        Some(RateRange(c.min + Rate(overhead, frames.value.longest), c.max + Rate(overhead, frames.value.shortest)))
  }

  function PriorityBitrate(settings: Settings, overhead: nat, frames: Option<FrameRange>): nat
    requires !settings.legacyOverhead ==> frames.Some?
  {
    if !settings.enablePriorityBitrate then 0
    else if settings.priorityBitrateRaw.Some? then settings.priorityBitrateRaw.value
    else
      var perPacket :=
        if settings.legacyOverhead then Rate(LEGACY_OVERHEAD_BYTES, 20_000) else Rate(overhead, frames.value.longest);
      settings.priorityBitrate + perPacket
  }

  /** The allocator entry that the given configuration, overhead and encoder ranges call for. */
  function Entry(settings: Settings, config: Config, overhead: nat,
                 frames: Option<FrameRange>, bitrates: Option<RateRange>): Option<AllocationConfig>
  {
    var c := GetMinMaxBitrateConstraints(settings, config, overhead, frames, bitrates);
    if c.None? then None
    else
      Some(AllocationConfig(
             c.value.min, c.value.max, 0, PriorityBitrate(settings, overhead, frames), true,
             if settings.bitratePriority.Some? then settings.bitratePriority.value else config.bitratePriority))
  }

  function CurrentEntry(s: Stream): Option<AllocationConfig> {
    Entry(s.settings, s.config, s.overheadPerPacket, s.frameLengths, s.bitrateRange)
  }

  // ---------------------------------------------------------------- allocator registration

  function ConfigureBitrateObserver(m: Machine): Outcome<Machine> {
    var entry := CurrentEntry(m.stream);
    if entry.None? then CheckFailed
    else
      Ok(m.(allocator := m.allocator[m.id := entry.value],
            stream := m.stream.(registered := true)))
  }

  function RemoveBitrateObserver(m: Machine): Machine {
    m.(allocator := m.allocator - {m.id},
       stream := m.stream.(registered := false))
  }

  predicate WantsAllocation(config: Config) {
    !config.hasDscp && config.minBitrateBps != -1 && config.maxBitrateBps != -1
  }

  /** The test Start applies. */
  predicate Eligible(settings: Settings, config: Config) {
    WantsAllocation(config) && (settings.allocateWithoutFeedback || TransportSeqNumId(config) != 0)
  }

  predicate AllocationFieldsEqual(a: Config, b: Config) {
    && a.minBitrateBps == b.minBitrateBps
    && a.maxBitrateBps == b.maxBitrateBps
    && a.bitratePriority == b.bitratePriority
    && TransportSeqNumId(a) == TransportSeqNumId(b)
    && a.adaptorConfig == b.adaptorConfig
  }

  function ReconfigureBitrateObserver(m: Machine, config: Config): Outcome<Machine> {
    if AllocationFieldsEqual(m.stream.config, config) then Ok(m)
    else if WantsAllocation(config) && TransportSeqNumId(config) != 0 then
      var limited := m.stream.config.(
                     minBitrateBps := config.minBitrateBps,
                     maxBitrateBps := config.maxBitrateBps,
                     bitratePriority := config.bitratePriority);
      var m1 :- ConfigureBitrateObserver(m.(pacesAudio := true, stream := m.stream.(config := limited)));
      Ok(m1.(stream := m1.stream.(partOfAllocation := true)))
    else
      var m1 := RemoveBitrateObserver(m.(pacesAudio := false));
      Ok(m1.(stream := m1.stream.(partOfAllocation := false)))
  }

  // ---------------------------------------------------------------- packet overhead

  function DeliverOverhead(encoder: Option<Encoder>, bytes: nat): Option<Encoder> {
    if encoder.Some? then Some(OnReceivedOverhead(encoder.value, bytes)) else None
  }

  function UpdateOverheadPerPacket(m: Machine, rtpOverhead: nat): Outcome<Machine> {
    var bytes := m.stream.transportOverhead + rtpOverhead;
    if m.stream.overheadPerPacket == bytes then Ok(m)
    else
      var m1 := m.(stream := m.stream.(overheadPerPacket := bytes,
                                       encoder := DeliverOverhead(m.stream.encoder, bytes)));
      if m1.stream.registered then ConfigureBitrateObserver(m1) else Ok(m1)
  }

  // ---------------------------------------------------------------- the encoder

  function SpeechEncoder(profile: Profile, adaptorConfig: Option<string>): Encoder {
    var e := Speech(profile, None, None, NewFrames(profile));
    if adaptorConfig.Some? then EnableAudioNetworkAdaptor(e, adaptorConfig.value).0 else e
  }

  function WrapCng(e: Encoder, payloadType: Option<int>): Encoder {
    if payloadType.Some? then Cng(payloadType.value, e) else e
  }

  function WrapRed(e: Encoder, payloadType: Option<int>): Encoder {
    if payloadType.Some? then Red(payloadType.value, 0, e) else e
  }

  /** The stack SetupSendCodec builds, before it learns about overhead. */
  function Stack(profile: Profile, adaptorConfig: Option<string>, spec: CodecSpec): Encoder {
    WrapRed(WrapCng(SpeechEncoder(profile, adaptorConfig), spec.cngPayloadType), spec.redPayloadType)
  }

  function KnowingOverhead(e: Encoder, overhead: nat): Encoder {
    if 0 < overhead then OnReceivedOverhead(e, overhead) else e
  }

  /** A comfort-noise wrapper can only be put around a mono encoder. */
  predicate CngFits(e: Encoder, cngPayloadType: Option<int>) {
    cngPayloadType.Some? ==> NumChannels(e) == 1
  }

  function StoreEncoderProperties(m: Machine, rate: int, channels: nat, dev: Shared.DeviceAnswer): Machine {
    var m1 := m.(stream := m.stream.(encoderSampleRateHz := rate, encoderChannels := channels));
    if m.stream.sending then
      m1.(audio := Shared.AddSendingStream(m.audio, m.id, Shared.StreamProperties(rate, channels), dev))
    else m1
  }

  function SetupSendCodec(m: Machine, config: Config, dev: Shared.DeviceAnswer): Outcome<Machine>
    requires config.codec.Some?
  {
    var spec := config.codec.value;
    if spec.format !in m.stream.settings.factory then Ok(m)
    else
      var profile := m.stream.settings.factory[spec.format];
      if !CngFits(SpeechEncoder(profile, config.adaptorConfig), spec.cngPayloadType) then CheckFailed
      else
        var e := KnowingOverhead(Stack(profile, config.adaptorConfig, spec), m.stream.overheadPerPacket);
        var m1 := StoreEncoderProperties(m, SampleRateHz(e), NumChannels(e), dev);
        Ok(m1.(stream := m1.stream.(encoder := Some(e))))
  }

  function ReconfigureAdaptor(e: Encoder, prior: Option<string>, next: Option<string>, overhead: nat): Encoder {
    if next == prior then e
    else if next.None? then DisableAudioNetworkAdaptor(e)
    else
      var (e', enabled) := EnableAudioNetworkAdaptor(e, next.value);
      if enabled then KnowingOverhead(e', overhead) else e'
  }

  function ReconfigureCng(e: Option<Encoder>, prior: Option<int>, next: Option<int>): Outcome<Option<Encoder>> {
    if next == prior then Ok(e)
    else if e.None? then CheckFailed
    else
      var bare := Unwrapped(e.value);
      if CngFits(bare, next) then Ok(Some(WrapCng(bare, next))) else CheckFailed
  }

  predicate NeedsNewEncoder(prior: Config, config: Config)
    requires config.codec.Some?
  {
    || prior.codec.None?
    || config.codec.value.format != prior.codec.value.format
    || config.codec.value.payloadType != prior.codec.value.payloadType
    || config.codec.value.redPayloadType != prior.codec.value.redPayloadType
  }

  function ReconfigureSendCodec(m: Machine, config: Config, dev: Shared.DeviceAnswer): Outcome<Machine> {
    var prior := m.stream.config;
    if config.codec.None? then (if prior.codec.Some? then CheckFailed else Ok(m))
    else if config.codec == prior.codec && config.adaptorConfig == prior.adaptorConfig then Ok(m)
    else if NeedsNewEncoder(prior, config) then SetupSendCodec(m, config, dev)
    else
      var e := if m.stream.encoder.None? then None
               else Some(ReconfigureAdaptor(m.stream.encoder.value, prior.adaptorConfig, config.adaptorConfig,
                                            m.stream.overheadPerPacket));
      var e' :- ReconfigureCng(e, prior.codec.value.cngPayloadType, config.codec.value.cngPayloadType);
      Ok(m.(stream := m.stream.(encoder := e')))
  }

  function RefreshRanges(s: Stream): Stream {
    if s.encoder.None? then s
    else s.(frameLengths := GetFrameLengthRange(s.encoder.value), bitrateRange := GetBitrateRange(s.encoder.value))
  }

  // ---------------------------------------------------------------- the calls

  function ConfigureStream(m: Machine, config: Config, rtpOverhead: nat, dev: Shared.DeviceAnswer)
    : Outcome<Machine>
  {
    var m1 :- ReconfigureSendCodec(m, config, dev);
    var m2 :- UpdateOverheadPerPacket(m1, rtpOverhead);
    var m3 := m2.(stream := RefreshRanges(m2.stream));
    var m4 :- if m3.stream.sending then ReconfigureBitrateObserver(m3, config) else Ok(m3);
    Ok(m4.(stream := m4.stream.(config := config)))
  }

  function StartSending(m: Machine, dev: Shared.DeviceAnswer): Outcome<Machine> {
    if m.stream.sending then Ok(m)
    else
      var m1 :- if Eligible(m.stream.settings, m.stream.config) then
                  ConfigureBitrateObserver(m.(pacesAudio := true, stream := m.stream.(partOfAllocation := true)))
                else Ok(m.(stream := m.stream.(partOfAllocation := false)));
      var props := Shared.StreamProperties(m.stream.encoderSampleRateHz, m.stream.encoderChannels);
      Ok(m1.(stream := m1.stream.(sending := true), audio := Shared.AddSendingStream(m1.audio, m.id, props, dev)))
  }

  function StopSending(m: Machine): Outcome<Machine> {
    if !m.stream.sending then Ok(m)
    else
      var audio :- Shared.RemoveSendingStream(m.audio, m.id);
      var m1 := RemoveBitrateObserver(m);
      Ok(m1.(stream := m1.stream.(sending := false), audio := audio))
  }

  function Adapted(s: Stream, frames: FrameRange): Stream {
    if s.encoder.None? then s else s.(encoder := Some(AdaptFrameLength(s.encoder.value, frames)))
  }

  function Encoded(s: Stream): Stream {
    if s.encoder.None? then s else s.(encoder := Some(EncodePacket(s.encoder.value)))
  }

  function Step(m: Machine, call: Call): Outcome<Machine> {
    match call
    case Start(dev) => StartSending(m, dev)
    case Stop => StopSending(m)
    case Reconfigure(config, rtp, dev) => ConfigureStream(m, config, rtp, dev)
    case SetTransportOverhead(bytes, rtp) =>
      UpdateOverheadPerPacket(m.(stream := m.stream.(transportOverhead := bytes)), rtp)
    case DeliverRtcp(rtp) => UpdateOverheadPerPacket(m, rtp)
    case Adapt(frames) => Ok(m.(stream := Adapted(m.stream, frames)))
    case Encode => Ok(m.(stream := Encoded(m.stream)))
  }
}
