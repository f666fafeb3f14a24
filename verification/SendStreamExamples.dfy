/** Short runs that put each cache of a send stream out of date. */
module SendStreamExamples {
  import opened Basics
  import opened RtpExtensions
  import opened AudioEncoders
  import opened SendStream
  import opened SendStreamCaches
  import opened SendStreamEncoder
  import opened AudioWorld
  import Shared = AudioState

  const DEV := Shared.DeviceAnswer(true, true)
  const SHORT_FRAMES := SdpAudioFormat("opus", 48000, 2, map["ptime" := "20"])
  const LONG_FRAMES := SdpAudioFormat("opus", 48000, 2, map["ptime" := "60"])

  function ProfileWithFrames(micros: nat): Profile
    requires 0 < micros
  {
    var frames: FrameRange := FrameLengths(micros, micros);
    Profile(48000, 1, Some(frames), Some(frames), None, {"adapt"})
  }

  const TRIALS := Settings(false, false, true, None, None, 0, None, None,
                           map[SHORT_FRAMES := ProfileWithFrames(20_000), LONG_FRAMES := ProfileWithFrames(60_000)])

  lemma FormatsDiffer()
    ensures SHORT_FRAMES != LONG_FRAMES
    ensures TRIALS.factory[SHORT_FRAMES] == ProfileWithFrames(20_000)
    ensures TRIALS.factory[LONG_FRAMES] == ProfileWithFrames(60_000)
  {
    assert SHORT_FRAMES.parameters["ptime"][0] != LONG_FRAMES.parameters["ptime"][0];
  }

  function Codec(format: SdpAudioFormat): CodecSpec {
    CodecSpec(111, format, false, false, None, None, None)
  }

  const ALLOCATED := Config(6_000, 32_000, 1.0, false, Some("adapt"), Some(Codec(SHORT_FRAMES)),
                            [RtpExtension(TRANSPORT_SEQUENCE_NUMBER_URI, 3, false)])

  /** A stream with this configuration, sending, 40 bytes of overhead per packet known. */
  function Sending(config: Config): Machine
    requires config.codec == Some(Codec(SHORT_FRAMES)) && config.adaptorConfig == Some("adapt")
  {
    var p := ProfileWithFrames(20_000);
    var e := Speech(p, Some(Adaptor("adapt", Some(40))), None, NewFrames(p));
    var s := Stream(TRIALS, config, true, true, 0, 40, p.adaptedFrames, None, 48000, 1, Some(e), true);
    var audio := Shared.AddSendingStream(Shared.INITIAL, 7, Shared.StreamProperties(48000, 1), DEV);
    Machine(7, s, audio, map[7 := AllocationConfig(22_000, 48_000, 0, 16_000, true, 1.0)], true)
  }

  /** Creating, configuring and starting the stream leads there. */
  lemma SendingIsReached()
    ensures var created := ConfigureStream(NewMachine(EMPTY, 7, TRIALS), ALLOCATED, 40, DEV);
            created.Ok? && StartSending(created.value, DEV) == Ok(Sending(ALLOCATED))
    ensures EntryCurrent(Sending(ALLOCATED)) && RegistrationCurrent(Sending(ALLOCATED))
    ensures EncoderCurrent(Sending(ALLOCATED).stream)
  {
    FormatsDiffer();
    var created := ConfigureStream(NewMachine(EMPTY, 7, TRIALS), ALLOCATED, 40, DEV);
    assert TransportSeqNumId(ALLOCATED) == 3;
    assert created.Ok?;
  }

  /** Switching to an encoder with longer frames leaves the allocator with the rates of the shorter ones. */
  lemma LongerFramesLeaveAStaleEntry()
    ensures var config := ALLOCATED.(codec := Some(Codec(LONG_FRAMES)));
            var m := ConfigureStream(Sending(ALLOCATED), config, 40, DEV);
            m.Ok? && !EntryCurrent(m.value)
  {
    FormatsDiffer();
  }

  /** Turning DSCP on does not take the stream out of bitrate allocation. */
  lemma DscpLeavesAStaleRegistration()
    ensures var config := ALLOCATED.(hasDscp := true);
            var m := ConfigureStream(Sending(ALLOCATED), config, 40, DEV);
            m.Ok? && m.value.stream.registered && !Eligible(TRIALS, config)
  {
  }

  /** Turning the network adaptor off leaves an encoder that knows no overhead, while one built anew knows 40 bytes. */
  lemma DisablingTheAdaptorLosesTheOverhead()
    ensures var config := ALLOCATED.(adaptorConfig := None);
            var m := ConfigureStream(Sending(ALLOCATED), config, 40, DEV);
            var p := ProfileWithFrames(20_000);
            && m.Ok? && m.value.stream.encoder == Some(Speech(p, None, None, NewFrames(p)))
            && FreshEncoder(TRIALS, config, 40) == Some(Speech(p, None, Some(40), NewFrames(p)))
  {
    FormatsDiffer();
  }

  // ---------------------------------------------------------------- allocation without feedback

  const NO_FEEDBACK := TRIALS.(allocateWithoutFeedback := true)
  const UNNUMBERED := ALLOCATED.(extensions := [])

  /** The same stream, allocated although it has no transport sequence number. */
  function SendingWithoutFeedback(): Machine {
    var m := Sending(ALLOCATED);
    m.(stream := m.stream.(settings := NO_FEEDBACK, config := UNNUMBERED))
  }

  lemma SendingWithoutFeedbackIsReached()
    ensures var created := ConfigureStream(NewMachine(EMPTY, 7, NO_FEEDBACK), UNNUMBERED, 40, DEV);
            created.Ok? && StartSending(created.value, DEV) == Ok(SendingWithoutFeedback())
    ensures RegistrationCurrent(SendingWithoutFeedback())
  {
    FormatsDiffer();
    var created := ConfigureStream(NewMachine(EMPTY, 7, NO_FEEDBACK), UNNUMBERED, 40, DEV);
    assert created.Ok?;
  }

  /** A new limit takes it out of bitrate allocation, where starting it again would register it. */
  lemma NewLimitLeavesAStaleRegistration()
    ensures var config := UNNUMBERED.(minBitrateBps := 7_000);
            var m := ConfigureStream(SendingWithoutFeedback(), config, 40, DEV);
            m.Ok? && !m.value.stream.registered && m.value.stream.sending && Eligible(NO_FEEDBACK, config)
  {
    FormatsDiffer();
  }

  // ---------------------------------------------------------------- frame lengths taken up late

  const PLAIN := ALLOCATED.(adaptorConfig := None)

  function Frame(micros: nat): FrameRange
    requires 0 < micros
  {
    FrameLengths(micros, micros)
  }

  /** The adaptor picks longer frames and is turned off before a packet is encoded: the stream is registered for the
      frames of the moment. */
  function AdaptorTurnedOff(): Machine {
    var p := ProfileWithFrames(20_000);
    var e := Speech(p, None, None, Frames(Some(Frame(20_000)), Some(Frame(60_000))));
    var m := Sending(ALLOCATED);
    m.(stream := m.stream.(config := PLAIN, encoder := Some(e)))
  }

  lemma AdaptorTurnedOffIsReached()
    ensures var picked := Sending(ALLOCATED).(stream := Adapted(Sending(ALLOCATED).stream, Frame(60_000)));
            ConfigureStream(picked, PLAIN, 40, DEV) == Ok(AdaptorTurnedOff())
    ensures EntryCurrent(AdaptorTurnedOff()) && FramesCopied(AdaptorTurnedOff().stream)
  {
    FormatsDiffer();
    assert TransportSeqNumId(PLAIN) == 3;
    var picked := Sending(ALLOCATED).(stream := Adapted(Sending(ALLOCATED).stream, Frame(60_000)));
    var m := ConfigureStream(picked, PLAIN, 40, DEV);
    assert m.Ok? && m.value.stream == AdaptorTurnedOff().stream;
    assert m.value.allocator == AdaptorTurnedOff().allocator;
  }

  /** The next packet brings the longer frames into use, and configuring the stream as it is already configured then
      leaves the allocator with the rates of the shorter ones. */
  lemma LateFramesLeaveAStaleEntry()
    ensures var encoded := AdaptorTurnedOff().(stream := Encoded(AdaptorTurnedOff().stream));
            var m := ConfigureStream(encoded, PLAIN, 40, DEV);
            EntryCurrent(encoded) && !FramesCopied(encoded.stream) && m.Ok? && !EntryCurrent(m.value)
  {
    FormatsDiffer();
  }

  // ---------------------------------------------------------------- limits set by a field trial

  const TRIAL_LIMITS := TRIALS.(minBitrate := Some(6_000), maxBitrate := Some(64_000))

  /** Limits of a field trial override the configured ones; an encoder's range overrides both. */
  lemma TrialLimitsAreRespected()
    ensures var config, frames := ALLOCATED.(minBitrateBps := 12_000, maxBitrateBps := 34_000), Frame(20_000);
            && GetMinMaxBitrateConstraints(TRIALS, config, 0, Some(frames), None) == Some(RateRange(12_000, 34_000))
            && GetMinMaxBitrateConstraints(TRIAL_LIMITS, config, 0, Some(frames), None) ==
               Some(RateRange(6_000, 64_000))
            && GetMinMaxBitrateConstraints(TRIAL_LIMITS, config, 0, Some(frames), Some(RateRange(8_000, 20_000))) ==
               Some(RateRange(8_000, 20_000))
  {
  }

  /** Enabling an adaptor whose encoder can use longer frames lowers the minimum registered. */
  lemma AdaptorRenewsTheEntry()
    ensures var p := ProfileWithFrames(20_000).(adaptedFrames := Some(FrameLengths(20_000, 60_000)));
            var settings := TRIALS.(factory := map[SHORT_FRAMES := p]);
            var e := Speech(p, None, Some(40), NewFrames(p));
            var m := Sending(ALLOCATED);
            var plain := m.(stream := m.stream.(settings := settings, config := PLAIN, encoder := Some(e)));
            var m' := ConfigureStream(plain, ALLOCATED, 40, DEV);
            && EntryCurrent(plain) && plain.allocator[7].minBitrateBps == 22_000
            && m'.Ok? && 7 in m'.value.allocator && m'.value.allocator[7].minBitrateBps == 11_333
  {
    FormatsDiffer();
    assert TransportSeqNumId(PLAIN) == 3;
  }
}
