/** The encoder a send stream drives: a speech encoder, possibly wrapped for comfort noise (CNG)
    and for redundancy (RED). The wrappers forward only some of the calls they receive. */
module AudioEncoders {
  import opened Basics

  datatype SdpAudioFormat = SdpAudioFormat(
    name: string,
    clockrateHz: int,
    numChannels: nat,
    parameters: map<string, string>)

  /** Frame lengths in microseconds. */
  datatype FrameLengths = FrameLengths(shortest: nat, longest: nat)

  type FrameRange = r: FrameLengths | 0 < r.shortest <= r.longest witness FrameLengths(1, 1)

  /** Bitrates in bits per second. */
  datatype RateRange = RateRange(min: nat, max: nat)

  /** What an encoder factory decides about one format: the encoder's rate and channels, the frame
      lengths it reports without and with a network adaptor, its bitrate range, and the adaptor
      configurations for which an adaptor can be created. */
  datatype Profile = Profile(
    sampleRateHz: int,
    channels: nat,
    plainFrames: Option<FrameRange>,
    adaptedFrames: Option<FrameRange>,
    bitrates: Option<RateRange>,
    accepts: set<string>)

  datatype Adaptor = Adaptor(config: string, overhead: Option<nat>)

  /** The frame lengths an encoder uses, and reports without an adaptor, and those it takes up once the packet at
      hand is encoded. */
  datatype Frames = Frames(current: Option<FrameRange>, next: Option<FrameRange>)

  function NewFrames(profile: Profile): Frames {
    Frames(profile.plainFrames, profile.plainFrames)
  }

  /** Speech keeps the packet overhead in its adaptor while it has one and in plainOverhead
      otherwise; Red keeps the overhead it subtracts from its maximum packet length. */
  datatype Encoder =
    | Speech(profile: Profile, adaptor: Option<Adaptor>, plainOverhead: Option<nat>, frames: Frames)
    | Cng(payloadType: int, inner: Encoder)
    | Red(payloadType: int, packetOverhead: nat, inner: Encoder)

  function SampleRateHz(e: Encoder): int {
    match e
    case Speech(p, _, _, _) => p.sampleRateHz
    case Cng(_, inner) => SampleRateHz(inner)
    case Red(_, _, inner) => SampleRateHz(inner)
  }

  function NumChannels(e: Encoder): nat {
    match e
    case Speech(p, _, _, _) => p.channels
    case Cng(_, _) => 1
    case Red(_, _, inner) => NumChannels(inner)
  }

  function GetFrameLengthRange(e: Encoder): Option<FrameRange> {
    match e
    case Speech(p, adaptor, _, frames) => if adaptor.Some? then p.adaptedFrames else frames.current
    case Cng(_, inner) => GetFrameLengthRange(inner)
    case Red(_, _, inner) => GetFrameLengthRange(inner)
  }

  /** Neither wrapper forwards this query. */
  function GetBitrateRange(e: Encoder): Option<RateRange> {
    if e.Speech? then e.profile.bitrates else None
  }

  /** The comfort-noise wrapper keeps the default implementation, which refuses. */
  function EnableAudioNetworkAdaptor(e: Encoder, config: string): (r: (Encoder, bool)) {
    match e
    case Speech(p, _, _, _) =>
      if config in p.accepts then (e.(adaptor := Some(Adaptor(config, None))), true)
      else (e.(adaptor := None), false)
    case Cng(_, _) => (e, false)
    case Red(pt, bytes, inner) =>
      var (inner', ok) := EnableAudioNetworkAdaptor(inner, config);
      (Red(pt, bytes, inner'), ok)
  }

  function DisableAudioNetworkAdaptor(e: Encoder): Encoder {
    match e
    case Speech(_, _, _, _) => e.(adaptor := None)
    case Cng(_, _) => e
    case Red(pt, bytes, inner) => Red(pt, bytes, DisableAudioNetworkAdaptor(inner))
  }

  function OnReceivedOverhead(e: Encoder, bytes: nat): Encoder {
    match e
    case Speech(_, adaptor, _, _) =>
      if adaptor.Some? then e.(adaptor := Some(adaptor.value.(overhead := Some(bytes))))
      else e.(plainOverhead := Some(bytes))
    case Cng(_, _) => e
    case Red(pt, _, inner) => Red(pt, bytes, OnReceivedOverhead(inner, bytes))
  }

  /** An adaptor picks the frame lengths to use from the next packet on; what it decides by gets through both wrappers.
      */
  function AdaptFrameLength(e: Encoder, frames: FrameRange): Encoder {
    match e
    case Speech(_, adaptor, _, _) => if adaptor.Some? then e.(frames := e.frames.(next := Some(frames))) else e
    case Cng(pt, inner) => Cng(pt, AdaptFrameLength(inner, frames))
    case Red(pt, bytes, inner) => Red(pt, bytes, AdaptFrameLength(inner, frames))
  }

  /** With the packet encoded, the frame lengths picked for the next one come into use. */
  function EncodePacket(e: Encoder): Encoder {
    match e
    case Speech(_, _, _, frames) => e.(frames := Frames(frames.next, frames.next))
    case Cng(pt, inner) => Cng(pt, EncodePacket(inner))
    case Red(pt, bytes, inner) => Red(pt, bytes, EncodePacket(inner))
  }

  /** What ReclaimContainedEncoders hands back: a wrapper's encoder, nothing for a speech encoder. */
  function Unwrapped(e: Encoder): Encoder {
    if e.Speech? then e else e.inner
  }

  /** The speech encoder inside. */
  function Core(e: Encoder): (speech: Encoder)
    ensures speech.Speech?
  {
    match e
    case Speech(_, _, _, _) => e
    case Cng(_, inner) => Core(inner)
    case Red(_, _, inner) => Core(inner)
  }

  /** The adaptor a speech encoder has after being asked for one. */
  function Accepted(profile: Profile, config: Option<string>): Option<string> {
    if config.Some? && config.value in profile.accepts then config else None
  }

  /** Whether adaptor calls get through to the speech encoder. */
  predicate AdaptorReachable(e: Encoder) {
    match e
    case Speech(_, _, _, _) => true
    case Cng(_, _) => false
    case Red(_, _, inner) => AdaptorReachable(inner)
  }

  /** The encoder as its callers can tell it apart: an overhead kept beside a live adaptor is not used, and the frame
      lengths of the moment are the adaptor's business. */
  function Observable(e: Encoder): Encoder {
    match e
    case Speech(p, adaptor, _, _) => if adaptor.Some? then e.(plainOverhead := None, frames := NewFrames(p)) else e
    case Cng(pt, inner) => Cng(pt, Observable(inner))
    case Red(pt, bytes, inner) => Red(pt, bytes, Observable(inner))
  }
}
