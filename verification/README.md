# Audio streams, reference counting and small cores of WebRTC, verified

The project models parts of a WebRTC source tree in Dafny and proves what they promise.

- **Audio streams of a call.** `SendStream*.dfy` hold a send stream on values: how it applies a new configuration to a
  live encoder, and how it keeps its entry in the bitrate allocator. `AudioState.dfy` holds what all streams share.
  `AudioWorld.dfy` puts any number of send and receive streams over one audio state and one allocator; `AudioRuns.dfy`,
  `AudioPacing.dfy` and `AudioEffects.dfy` prove what holds after every interleaving of their calls. `AudioObjects.dfy`
  and `AudioSendStream.dfy` hold the same as objects updated in place, each method proved to be the step of the model.
- **Reference counting.** `RefCounting.dfy` counts over any number of handles and objects; `ScopedRefptr.dfy` is the
  smart pointer on the heap.
- **Statistics.** `StatsIds.dfy` (equality and printed forms of identifiers), `StatsCollection.dfy` (ownership, merge).
- **Header extensions** (`HeaderExtensions.dfy`), **field trials** (`FieldTrials.dfy`), **audio level**
  (`AudioLevel.dfy`), **candidate priority** (`CandidatePriority.dfy`), **event log file** (`EventLogFile.dfy`).

`dafny verify dfyconfig.toml` checks all of it.

## Reading the model

- A check (RTC_CHECK, RTC_DCHECK) that fires, or a null dereference, is the outcome `CheckFailed`; methods return false.
  Nothing is claimed after it.
- What comes from outside is a parameter of the call: whether the audio device starts, the RTP header overhead at the
  time, how much of an output the operating system takes.
- Methods that lock a mutex or run on one thread are single steps. Doubles are reals; rates, sizes and durations are
  integers with truncating division. Streams are named by naturals, which stand for their addresses.
- The speech encoder is the Opus one as far as the stream can tell: frame lengths with and without a network adaptor,
  those picked by the adaptor and taken up with the next packet, and the packet overhead kept in the adaptor while there
  is one and beside it otherwise. When an adaptor picks frame lengths, and which, comes from outside. The encoder factory
  of a stream is fixed for its life.

## What turned out not to hold

Four caches of a send stream are not always current, and for each the exact condition is proved
(`AudioRuns.CachesStayCurrentExactlyWhen`):

- *Allocator entry.* Reconfiguring to an encoder with other frame lengths or bitrates leaves the entry computed for the
  old ones when none of the compared fields differs. The ranges to come are foretold from the stream before the call and
  the new configuration (`SendStreamRanges.dfy`), so the condition can be tested before the call.
- *Registration.* A change of the DSCP flag alone goes unnoticed, and Reconfigure asks for a transport sequence number
  where Start, with allocation without feedback, does not.
- *Copied frame lengths.* An encoder that lost its adaptor takes up the frame lengths the adaptor picked last with the next
  packet; only Reconfigure looks again, and does not renew the entry then if nothing else changed.
- *Encoder.* The comfort-noise wrapper forwards neither adaptor nor overhead calls, turning the adaptor off brings back
  whatever overhead was known without it and shows the frame lengths in use, and a comfort-noise change removes a
  redundancy wrapper instead.

Which calls bring a stale one up to date is stated beside each, for the encoder and the frame lengths as a condition for
every state before the call, and runs that meet simple conditions never make one stale
(`AudioRuns.PlainRunsStayCurrent`). Which calls and runs trip a check is stated exactly as well
(`AudioRuns.RunPassesExactlyWhen`).

The pacing flag of the transport is shared by all streams, and a stream that leaves allocation clears it for the others,
even if it never took part (`AudioPacing.dfy`, with the exact condition over runs).

Printed identifiers are not unique for a local and a remote candidate of one id, nor for negative components. Lookup with
encryption preferred falls back to the last unencrypted header extension, deduplication to the first.
The comment on the bitrate limits says to set both to -1 to disable adaptation; the code, and the model, takes either.

## Model

| member | source | states |
|---|---|---|
| AudioRuns.PlayoutSafety | libwebrtc/src/audio/audio_state.cc:54-107 | After any run over any number of streams the poller runs iff someone receives and playout is off, the device plays (records) only if someone receives (sends) and it is enabled, so the mixer never has two pullers; with a device that always starts, exactly one pulls whenever someone receives. |
| AudioRuns.CrossObjectAgreement | libwebrtc/src/audio/audio_state.cc:74-177 | After any interleaving a send stream is listed iff it sends, with the rate and channels of its encoder if it has one; a receive stream is listed iff it plays; the transport serves exactly the sending streams at the maximum rate and channels. |
| AudioRuns.RegistrationInEveryRun | libwebrtc/src/audio/audio_send_stream.cc:324-365 | After any run the allocator holds exactly the registered streams, registration implies sending, and while sending it equals the part-of-allocation flag of the RTP module. |
| AudioRuns.MembershipChecksNeverFire | libwebrtc/src/audio/audio_state.cc:74-158 | The membership checks never fire: after any run an existing receive stream can be started and stopped and an existing send stream stopped. |
| AudioRuns.CapturedFramesReachTheSendingStreams | libwebrtc/src/audio/audio_transport_impl.cc:194-210 | After any run a captured frame is delivered exactly once to every sending stream and to no other. |
| AudioRuns.TeardownChecksPass | libwebrtc/src/audio/audio_state.cc:39-44 | When no stream sends or plays, the destructor's checks hold and the device is idle. |
| AudioEffects.SetPlayoutEffect | libwebrtc/src/audio/audio_state.cc:54-72 | Afterwards playout is as asked; off: the device is stopped and the poller runs iff someone receives; on: no poller, a playing device plays on, an idle one starts iff someone receives and it answers; nothing else changes. |
| AudioEffects.SetRecordingEffect | libwebrtc/src/audio/audio_state.cc:109-126 | The same for recording and senders. |
| AudioEffects.AddReceiverEffect | libwebrtc/src/audio/audio_state.cc:74-95 | Refused iff listed; the stream joins receivers and mixer; an idle device starts iff enabled and answering; the poller runs iff playout is off; nothing else changes. |
| AudioEffects.RemoveReceiverEffect | libwebrtc/src/audio/audio_state.cc:97-107 | Refused iff not listed; the stream leaves receivers and mixer; device and poller go on iff others are left. |
| AudioEffects.AddSenderEffect | libwebrtc/src/audio/audio_state.cc:128-148 | The stream is listed as told, others as before; the transport describes all; an idle device records iff enabled and answering. |
| AudioEffects.RemoveSenderEffect | libwebrtc/src/audio/audio_state.cc:150-158 | Refused iff not listed; the stream is gone, others as before; the device records on iff others are left. |
| AudioEffects.FlagsOfEveryRun | libwebrtc/src/audio/audio_state.cc:70-125 | After any run playout and recording are on iff the last call about them said so, or there was none. |
| AudioEffects.ReceiversOfEveryRun | libwebrtc/src/audio/audio_receive_stream.cc:187-207 | After any run exactly the receive streams started and not since stopped or destroyed are listed and feed the mixer. |
| AudioEffects.SendersOfEveryRun | libwebrtc/src/audio/audio_send_stream.cc:333-365 | After any run exactly the send streams started and not since stopped are listed as sending. |
| AudioEffects.SendStreamsAfter | libwebrtc/src/audio/audio_send_stream.cc:126-168 | An operation changes no send stream but the one it names. |
| AudioEffects.ReceiveStreamsAfter | libwebrtc/src/audio/audio_receive_stream.cc:141-207 | Nor any receive stream, whose playing flag it sets as it says. |
| AudioRuns.CallKeepsCurrentExactlyWhen | libwebrtc/src/audio/audio_send_stream.cc:324-331 | For each cache (allocator entry, registration, live encoder, copied frame lengths): a call on a stream whose cache is current leaves it current iff a condition holds that reads only the stream before the call and the arguments. |
| AudioRuns.CachesStayCurrentExactlyWhen | libwebrtc/src/audio/audio_send_stream.cc:175-331 | Over whole runs with any number of streams, a cache is current in every state iff every call met its condition. |
| AudioRuns.CachesOfEveryRun | libwebrtc/src/audio/audio_send_stream.cc:175-331 | The same for every run from the start. |
| AudioRuns.PlainConditionsSuffice | libwebrtc/src/audio/audio_send_stream.cc:744-776 | Conditions that are easy to meet imply the exact ones: the encoder ranges change only with a compared field; the DSCP flag stays and allocation is tied to feedback; a known format without comfort noise, no adaptor change on the live encoder, an overhead that does not vanish; no frame lengths of a former adaptor waiting. |
| AudioRuns.PlainRunsStayCurrent | libwebrtc/src/audio/audio_send_stream.cc:175-331 | A run all of whose calls meet them keeps the cache concerned current on every stream in every state. |
| AudioRuns.EntriesOfPlainRuns | libwebrtc/src/audio/audio_send_stream.cc:744-823 | In every run in which encoder ranges change only together with a compared field, every allocator entry is current in every state. |
| AudioRuns.RegistrationWithFixedDscp | libwebrtc/src/audio/audio_send_stream.cc:333-353 | In every run over streams that require feedback and keep the DSCP flag they were created with, a sending stream is registered iff eligible, in every state. |
| AudioRuns.RunPassesExactlyWhen | libwebrtc/src/audio/audio_send_stream.cc:333-365 | A run trips no check iff every operation meets its condition in the state it finds; the membership checks of the audio state add none beyond existence. |
| AudioRuns.OpPassesExactlyWhen | libwebrtc/src/audio/audio_state.cc:74-158 | The same for one operation, for receive streams and lifetimes too. |
| AudioRuns.SoundRunsPass | libwebrtc/src/audio/audio_send_stream.cc:778-798 | Sound runs meet those conditions: objects used within their lifetime, a codec known to the factory and not taken away, comfort noise on mono only, and, for whoever is eligible for allocation, valid limits and a codec unless the overhead is fixed. |
| AudioWorld.StepKeepsConsistent | libwebrtc/src/audio/audio_state.cc:54-177 | Every operation on any stream keeps the whole call consistent: audio state safe, the registration, announcement and encoder properties of every stream right, the allocator and the sender map holding existing streams only, receivers listed iff playing; with a willing device what should run keeps running. |
| SendStreamInvariants.StepKeepsInvariant | libwebrtc/src/audio/audio_send_stream.cc:333-365 | Every call keeps registration, announcement and the values copied from the encoder right, and touches no other stream's allocator entry or listing. |
| SendStreamInvariants.CodecChangeKeepsInvariant | libwebrtc/src/audio/audio_send_stream.cc:549-742 | Whichever way the codec is reconfigured, the announced rate and channels are those of the resulting encoder and only mono encoders sit in a comfort-noise wrapper. |
| SendStreamInvariants.StopNeverFails | libwebrtc/src/audio/audio_state.cc:150-158 | Removing a stream that announced itself finds it. |
| SendStreamCaches.Stages | libwebrtc/src/audio/audio_send_stream.cc:304-331 | What Reconfigure has done by the time it looks at the bitrate observer: encoder and ranges new; the allocator entry renewed for the new overhead and the old ranges if the overhead changed, untouched otherwise. |
| SendStreamRanges.RangesAfterReconfigure | libwebrtc/src/audio/audio_send_stream.cc:304-322 | The frame lengths and bitrates Reconfigure copies from the encoder are those foretold from the stream before the call and the new configuration: of the factory profile for a new encoder, of an adaptor change that gets through, of the moment if a former adaptor left others, of what a comfort-noise change hides or uncovers. |
| SendStreamRanges.SameEntryExactlyWhen | libwebrtc/src/audio/audio_send_stream.cc:778-875 | Two pairs of ranges give one allocator entry iff the payload bitrates agree (fixed overhead), or iff payload plus overhead agrees at the longest and at the shortest frames and, for a derived priority bitrate, the overhead at the longest. |
| SendStreamCaches.StaleEntryRecoversExactlyWhen | libwebrtc/src/audio/audio_send_stream.cc:504-520 | A stale entry becomes current iff the stream is stopped, the overhead changes, a compared field changes, or Reconfigure leads to ranges for which the entry held is right. |
| SendStreamCaches.StaleRegistrationRecoversExactlyWhen | libwebrtc/src/audio/audio_send_stream.cc:744-776 | A stale registration becomes current iff the stream is stopped, the DSCP flag of an otherwise eligible stream changes alone, or a compared field changes without eligibility merely by allocation without feedback. |
| SendStreamCaches.FramesCopiedExactlyWhen | libwebrtc/src/modules/audio_coding/codecs/opus/audio_encoder_opus.cc:628-628 | The frame lengths copied from the encoder are those it reports after any call iff: the call is Reconfigure; or a packet was encoded and they agree with an adaptor or with the lengths taken up; or they agreed before. |
| SendStreamCaches.OtherCallsKeepEntryCurrent | libwebrtc/src/audio/audio_send_stream.cc:504-520 | Start, Stop and overhead updates leave the allocator with the entry the current configuration, overhead and ranges call for. |
| SendStreamCaches.ReconfigureKeepsEntryCurrentExactlyWhen | libwebrtc/src/audio/audio_send_stream.cc:744-823 | Reconfigure leaves the entry current iff the stream is unregistered, a compared field differs, or the ranges the new configuration brings lead to the same bitrates, all of which can be told before the call. |
| SendStreamCaches.OtherCallsKeepRegistrationCurrent | libwebrtc/src/audio/audio_send_stream.cc:333-365 | Start, Stop and overhead updates keep registration equal to the eligibility test while sending. |
| SendStreamCaches.ReconfigureKeepsRegistrationCurrentExactlyWhen | libwebrtc/src/audio/audio_send_stream.cc:744-776 | Reconfigure keeps it so iff the stream does not send or: with equal compared fields the DSCP flag is the same or does not matter for eligibility; with different ones the new configuration is not eligible merely by allocation without feedback. |
| SendStreamCaches.StepKeepsAudioSafe | libwebrtc/src/audio/audio_send_stream.cc:333-365 | Calls on a stream keep the shared audio state safe. |
| SendStreamEncoder.CallLeavesEncoderCurrentExactlyWhen | libwebrtc/src/audio/audio_send_stream.cc:497-742 | For every call and every state of the encoder, stale or not: afterwards it is indistinguishable (layers, payload types, adaptor, known overhead, frame lengths without adaptor) from one built anew iff the stated condition on the state before holds. |
| SendStreamEncoder.ReconfigureLeavesEncoderCurrentExactlyWhen | libwebrtc/src/audio/audio_send_stream.cc:560-742 | The same for Reconfigure: a new encoder is right unless the overhead drops to zero; the live one iff it comes out of the adaptor, comfort-noise and overhead steps right. |
| SendStreamEncoder.ReconfigureKeepsEncoderCurrentExactlyWhen | libwebrtc/src/audio/audio_send_stream.cc:560-742 | For an encoder that was as good as new the condition is simpler. |
| SendStreamEncoder.LooksNewExactlyWhen | libwebrtc/src/audio/audio_send_stream.cc:560-629 | An encoder cannot be told from a new one iff its layers, the packet overhead of a redundancy wrapper, the profile, adaptor and overhead in use of its speech encoder and, without an adaptor, its frame lengths are those of a new one. |
| SendStreamEncoder.InPlaceComesOutExactlyWhen | libwebrtc/src/audio/audio_send_stream.cc:677-742 | From any encoder whatever, the in-place steps give one that cannot be told from a new one iff its layers, packet overhead and speech encoder come out right, each told from the encoder before. |
| SendStreamEncoder.InPlaceFollowsExactlyWhen | libwebrtc/src/audio/audio_send_stream.cc:659-742 | From one as good as new: iff no redundancy wrapper meets a comfort-noise change, no comfort-noise wrapper swallows an adaptor change, and the speech encoder ends up with the overhead and, if it loses its adaptor, the frame lengths of a new one. |
| SendStreamEncoder.NewEncoderFollowsExactlyWhen | libwebrtc/src/audio/audio_send_stream.cc:560-629 | A rebuilt encoder followed by the overhead update agrees with one built for the final overhead iff the overhead does not drop to zero or a comfort-noise wrapper hides it anyway. |
| SendStreamEncoder.OtherCallsKeepEncoderCurrentExactlyWhen | libwebrtc/src/audio/audio_send_stream.cc:497-520 | Other calls keep it so iff the overhead stays or reaches the encoder as in a Reconfigure to the same configuration; encoding packets never harms. |
| AudioPacing.PacedExactlyWhen | libwebrtc/src/audio/audio_send_stream.cc:744-776 | Over whole runs with any number of streams, the shared pacing flag is set in every state with a registered stream iff no call takes a stream out of allocation while another one is registered. |
| AudioPacing.PacingOfEveryRun | libwebrtc/src/audio/audio_send_stream.cc:333-353 | The same for every run from the start. |
| AudioPacing.StepKeepsPacedExactlyWhen | libwebrtc/src/audio/audio_send_stream.cc:771-774 | The same for one operation. |
| AudioPacing.AnotherStreamClearsTheFlag | libwebrtc/src/audio/audio_send_stream.cc:750-774 | A run in which a new priority for a stream that never was registered clears the flag while another stream is registered. |
| SendStreamEncoder.CngChangeDropsRed | libwebrtc/src/audio/audio_send_stream.cc:718-741 | A comfort-noise change on an encoder with one redundancy wrapper loses that wrapper. |
| SendStreamEncoder.OverheadReachesCore | libwebrtc/src/modules/audio_coding/codecs/red/audio_encoder_copy_red.cc:270-273 | Through any layers, overhead reaches the speech encoder iff no comfort-noise wrapper is among them, and a redundancy wrapper notes it. |
| SendStreamEncoder.AdaptorReachesCore | libwebrtc/src/modules/audio_coding/codecs/cng/audio_encoder_cng.cc:34-65 | An adaptor change reaches the speech encoder iff no comfort-noise wrapper, which keeps the refusing default, is among the layers. |
| SendStreamChecks.CallPassesExactlyWhen | libwebrtc/src/audio/audio_send_stream.cc:560-823 | A call trips no check iff: the codec is not taken away, comfort noise goes on mono encoders that exist, and an allocator entry can be computed wherever one is needed (on Start if eligible, on an overhead change if registered, for the ranges to come if a compared field changes towards allocation). |
| SendStreamChecks.SoundCallsPass | libwebrtc/src/audio/audio_send_stream.cc:778-798 | On a ready stream every sound call meets that condition. |
| SendStreamChecks.SoundCallsKeepReady | libwebrtc/src/audio/audio_send_stream.cc:304-331 | And leaves the stream ready. |
| SendStreamRates.EntryExists | libwebrtc/src/audio/audio_send_stream.cc:825-875 | An allocator entry exists iff the limits are non-negative, the payload bitrates in order and, without the fixed overhead, a frame range known; its bounds are in order and no lower than the payload bitrates. |
| SendStreamRates.ConstraintsAreTheTightBounds | libwebrtc/src/audio/audio_send_stream.cc:825-875 | Without the fixed overhead, payload plus overhead lies in the constraints for every frame length and payload bitrate in range, both bounds are attained (longest and shortest frames), and a configured priority bitrate adds the least overhead of any frame length. |
| SendStreamRates.ForwardedRatesLieWithinConstraints | libwebrtc/src/audio/audio_send_stream.cc:476-491 | With constraints, target and stable target are forwarded inside them: unchanged if inside, else the bound they exceed; a target below the stable one stays so; without constraints both pass unchanged. |
| SendStreamEffects.ConstraintsOnFields | libwebrtc/src/audio/audio_send_stream.cc:825-875 | On fields: constraints exist iff both limits are non-negative, the payload bitrates in order and, unless the overhead is fixed, frame lengths known; each payload bitrate is the encoder's, else the field trial's, else the configured one; the overhead added is that of the longest frames below and the shortest above, or 6666 bit/s. |
| SendStreamEffects.EntryOnFields | libwebrtc/src/audio/audio_send_stream.cc:778-818 | The rest of the entry on fields: minimum enforced, no padding, priority bitrate off, raw, or payload plus the overhead of the longest frames (20000 bit/s if fixed), priority of the trial or configured. |
| SendStreamEffects.ReconfigureEffectOnAllocator | libwebrtc/src/audio/audio_send_stream.cc:744-823 | On a sending stream, if limits, priority, transport sequence number id or adaptor configuration differ, afterwards the allocator holds the entry of the new configuration, the new overhead and the ranges the encoder then reports, or nothing if allocation is not asked for; if all five agree, only a changed overhead reaches it; pacing and the module flag follow. |
| SendStreamEffects.ReconfigureIdleEffect | libwebrtc/src/audio/audio_send_stream.cc:324-328 | On a stream that does not send, allocator, pacing and audio state stay as they are. |
| SendStreamEffects.NewEncoderEffect | libwebrtc/src/audio/audio_send_stream.cc:652-660 | If there was no codec or format, payload type or redundancy payload type differ, the encoder becomes the one built anew, whatever it was, with its properties stored and, while sending, announced; an unknown format changes nothing. |
| SendStreamEffects.LiveEncoderEffect | libwebrtc/src/audio/audio_send_stream.cc:661-742 | Otherwise the speech encoder inside stays, but for the adaptor a changed configuration gives it if that gets through: enabled with the known overhead, or none. |
| SendStreamEffects.NoCodecEffect | libwebrtc/src/audio/audio_send_stream.cc:631-650 | A codec cannot be taken away; leaving it out before changes nothing. |
| SendStreamEffects.StartEffect | libwebrtc/src/audio/audio_send_stream.cc:333-353 | Start registers iff no DSCP, both limits set, and a transport sequence number or allocation without feedback; then with the entry the state calls for and pacing on; and announces the stream. |
| SendStreamEffects.StartPassesOnFields | libwebrtc/src/audio/audio_send_stream.cc:333-353 | Start trips a check iff the stream is eligible on these fields and no entry can be computed; with a limit unset it is not eligible. |
| SendStreamEffects.ReconfigurePassesOnFields | libwebrtc/src/audio/audio_send_stream.cc:744-798 | Reconfigure trips a check iff the codec change does or an entry that is needed cannot be computed, on fields. |
| SendStreamEffects.StopEffect | libwebrtc/src/audio/audio_send_stream.cc:355-365 | Stop takes the stream out of allocator and audio state and changes nothing else. |
| SendStreamEffects.NewStreamIsNotAllocated | libwebrtc/src/audio/audio_send_stream.h:164-213 | A stream never configured is not registered by Start. |
| SendStreamEffects.OverheadEffect | libwebrtc/src/audio/audio_send_stream.cc:497-520 | The new overhead is noted, told to the encoder and, if registered, to the allocator; nobody hears of an unchanged one. |
| SendStreamEffects.DeliverRtcpIsAnOverheadUpdate | libwebrtc/src/audio/audio_send_stream.cc:468-474 | RTCP has the effect of a new RTP header size with the transport overhead as it was. |
| SendStreamEffects.LastIdIsAtTheLastPosition | libwebrtc/src/audio/audio_send_stream.cc:182-207 | The id is that at the last position with the URI, 0 if there is none. |
| SendStreamEffects.TransportSequenceNumberId | libwebrtc/src/api/rtp_parameters.h:357-359 | The transport sequence number id is the one found under this URI. |
| SendStreamExamples.SendingIsReached | libwebrtc/src/audio/audio_send_stream.cc:126-161 | A short run reaches a registered sending stream with all caches current. |
| SendStreamExamples.LongerFramesLeaveAStaleEntry | libwebrtc/src/audio/audio_send_stream.cc:744-757 | From there a codec with longer frames leaves a stale allocator entry. |
| SendStreamExamples.DscpLeavesAStaleRegistration | libwebrtc/src/audio/audio_send_stream.cc:750-760 | And turning DSCP on leaves the stream registered. |
| SendStreamExamples.DisablingTheAdaptorLosesTheOverhead | libwebrtc/src/audio/audio_send_stream.cc:677-703 | And turning the adaptor off leaves an encoder that knows no overhead, unlike one built anew. |
| SendStreamExamples.SendingWithoutFeedbackIsReached | libwebrtc/src/audio/audio_send_stream.cc:337-347 | A short run reaches a stream registered without a transport sequence number. |
| SendStreamExamples.NewLimitLeavesAStaleRegistration | libwebrtc/src/audio/audio_send_stream.cc:760-775 | From there a new limit unregisters the stream, though it is eligible. |
| SendStreamExamples.AdaptorTurnedOffIsReached | libwebrtc/src/modules/audio_coding/codecs/opus/audio_encoder_opus.cc:717-724 | An adaptor picks longer frames and is turned off before a packet is encoded: entry and copied frame lengths are current. |
| SendStreamExamples.LateFramesLeaveAStaleEntry | libwebrtc/src/modules/audio_coding/codecs/opus/audio_encoder_opus.cc:819-830 | Once a packet is encoded the copied frame lengths are stale, and reconfiguring to the very same configuration leaves a stale entry. |
| SendStreamExamples.AdaptorRenewsTheEntry | libwebrtc/src/audio/audio_send_stream.cc:754-770 | Enabling an adaptor with longer frames lowers the registered minimum from 22000 to 11333 bit/s. |
| SendStreamExamples.TrialLimitsAreRespected | libwebrtc/src/audio/audio_send_stream.cc:838-848 | Limits of a field trial override configured ones, the range of the encoder overrides both. |
| AudioSendStreams.AudioSendStream.constructor | libwebrtc/src/audio/audio_send_stream.h:164-213 | The stream before its first configuration. |
| AudioSendStreams.AudioSendStream.FindExtensionIds | libwebrtc/src/audio/audio_send_stream.cc:182-203 | Each id is that of the last extension with its URI, 0 without one. |
| AudioSendStreams.AudioSendStream.ConfigureBitrateObserver | libwebrtc/src/audio/audio_send_stream.cc:778-818 | Registers the entry the current state calls for, or trips the check when there is none. |
| AudioSendStreams.AudioSendStream.RemoveBitrateObserver | libwebrtc/src/audio/audio_send_stream.cc:820-823 | Removes the stream from the allocator, whether or not it was there. |
| AudioSendStreams.AudioSendStream.ReconfigureBitrateObserver | libwebrtc/src/audio/audio_send_stream.cc:744-776 | Nothing if the compared fields are equal, otherwise registers anew or removes. |
| AudioSendStreams.AudioSendStream.UpdateOverheadPerPacket | libwebrtc/src/audio/audio_send_stream.cc:504-520 | Tells encoder and allocator about a changed overhead, nobody about an unchanged one. |
| AudioSendStreams.AudioSendStream.StoreEncoderProperties | libwebrtc/src/audio/audio_send_stream.cc:549-557 | Stores rate and channels and, while sending, announces them. |
| AudioSendStreams.AudioSendStream.SetupSendCodec | libwebrtc/src/audio/audio_send_stream.cc:560-629 | Builds the stack of speech, comfort-noise and redundancy encoders; keeps the old one if none can be created. |
| AudioSendStreams.AudioSendStream.ReconfigureANA | libwebrtc/src/audio/audio_send_stream.cc:677-703 | Enables or disables the adaptor on the outermost encoder, passing on the known overhead when enabled. |
| AudioSendStreams.AudioSendStream.ReconfigureCNG | libwebrtc/src/audio/audio_send_stream.cc:705-742 | Takes off one wrapper and puts on a comfort-noise one if asked for. |
| AudioSendStreams.AudioSendStream.ReconfigureSendCodec | libwebrtc/src/audio/audio_send_stream.cc:631-675 | Keeps, rebuilds or changes the encoder according to the difference of the configurations. |
| AudioSendStreams.AudioSendStream.ConfigureStream | libwebrtc/src/audio/audio_send_stream.cc:304-331 | Codec, overhead, ranges, bitrate observer and configuration, in this order. |
| AudioSendStreams.AudioSendStream.Reconfigure | libwebrtc/src/audio/audio_send_stream.cc:175-180 | Reaches the state of the model step; keeps the invariant and other streams; entry and registration stay current iff the conditions on the state before hold. |
| AudioSendStreams.AudioSendStream.Start | libwebrtc/src/audio/audio_send_stream.cc:333-353 | Reaches the state of the model step; keeps the invariant; on a stream that did not send, entry and registration are current afterwards. |
| AudioSendStreams.AudioSendStream.Stop | libwebrtc/src/audio/audio_send_stream.cc:355-365 | Reaches the state of the model step; trips no check on a stream that meets the invariant, and leaves entry and registration current. |
| AudioSendStreams.AudioSendStream.SetTransportOverhead | libwebrtc/src/audio/audio_send_stream.cc:497-502 | Stores the transport overhead, then updates the packet overhead as the model step does. |
| AudioSendStreams.AudioSendStream.DeliverRtcp | libwebrtc/src/audio/audio_send_stream.cc:468-474 | Updates the packet overhead as the model step does, as RTCP may have changed the RTP header size. |
| AudioSendStreams.AudioSendStream.Adapt | libwebrtc/src/modules/audio_coding/codecs/opus/audio_encoder_opus.cc:717-724 | The adaptor picks the frame lengths of the next packet, as the model step does. |
| AudioSendStreams.AudioSendStream.Encode | libwebrtc/src/modules/audio_coding/codecs/opus/audio_encoder_opus.cc:607-628 | With a packet encoded they come into use, as the model step does. |
| AudioSendStreams.AudioSendStream.OnBitrateUpdated | libwebrtc/src/audio/audio_send_stream.cc:476-491 | Forwards the rates ForwardedRatesLieWithinConstraints describes. |
| AudioObjects.AudioTransportImpl.UpdateAudioSenders | libwebrtc/src/audio/audio_transport_impl.cc:282-289 | Replaces senders, rate and channels. |
| AudioObjects.AudioTransportImpl.SendProcessedData | libwebrtc/src/audio/audio_transport_impl.cc:194-210 | Delivers the frame to every sender, the first one last. |
| AudioObjects.AudioState.SetPlayout | libwebrtc/src/audio/audio_state.cc:54-72 | Starts or stops the device and sets the poller accordingly. |
| AudioObjects.AudioState.AddReceivingStream | libwebrtc/src/audio/audio_state.cc:74-95 | Adds stream and mixer source, starts the device if enabled and idle. |
| AudioObjects.AudioState.RemoveReceivingStream | libwebrtc/src/audio/audio_state.cc:97-107 | Removes stream and mixer source, stops the device with the last one. |
| AudioObjects.AudioState.SetRecording | libwebrtc/src/audio/audio_state.cc:109-126 | Starts or stops recording. |
| AudioObjects.AudioState.AddSendingStream | libwebrtc/src/audio/audio_state.cc:128-148 | Adds or updates a stream, updates the transport, starts recording if enabled and idle. |
| AudioObjects.AudioState.RemoveSendingStream | libwebrtc/src/audio/audio_state.cc:150-158 | Removes a stream, updates the transport, stops recording with the last one. |
| AudioObjects.AudioState.UpdateAudioTransportWithSendingStreams | libwebrtc/src/audio/audio_state.cc:165-177 | The loop over the map hands the transport all keys in order and the maxima. |
| AudioObjects.AudioState.UpdateNullAudioPollerState | libwebrtc/src/audio/audio_state.cc:179-210 | Runs the poller iff someone receives and playout is off. |
| AudioObjects.AudioReceiveStream.Start | libwebrtc/src/audio/audio_receive_stream.cc:187-196 | Adds the stream to the audio state once. |
| AudioObjects.AudioReceiveStream.Stop | libwebrtc/src/audio/audio_receive_stream.cc:198-207 | Removes it once. |
| AudioState.SummaryDescribes | libwebrtc/src/audio/audio_state.cc:165-177 | The loop's result lists each sending stream once, in order, with rate max(8000, all) and channels max(1, all). |
| AudioState.DescribesIsExact | libwebrtc/src/audio/audio_state.cc:165-177 | That description determines the transport. |
| AudioState.OnePuller | libwebrtc/src/audio/audio_state.cc:179-210 | Poller and device never pull the mixer together. |
| AudioState.SendingStepsKeepSafe | libwebrtc/src/audio/audio_state.cc:128-158 | Adding and removing senders keep the audio state safe. |
| AudioState.OtherStepsKeepSafe | libwebrtc/src/audio/audio_state.cc:54-126 | So do playout, recording and receivers. |
| RefCounting.ReferenceCounting | libwebrtc/src/api/scoped_refptr.h:78-160 | In every run of permitted operations no dead object is touched; afterwards every object ever created is alive with a count equal to the handles and raw references to it, or was destroyed exactly once, in the step that took its last reference. |
| RefCounting.RunKeepsCounted | libwebrtc/src/api/scoped_refptr.h:78-160 | The same from any counted state, for objects alive at the start and created since. |
| RefCounting.StepKeepsCounted | libwebrtc/src/api/ref_counted_base.h:27-34 | Each operation destroys exactly the objects whose last reference it takes, once. |
| RefCounting.AssignKeepsCounted | libwebrtc/src/api/scoped_refptr.h:124-136 | Assignment, self-assignment included, keeps counts exact. |
| RefCounting.MoveKeepsCounted | libwebrtc/src/api/scoped_refptr.h:143-152 | So does move assignment, onto itself included. |
| RefCounting.MoveViaTemporary | libwebrtc/src/api/scoped_refptr.h:143-146 | Moving through a temporary that is swapped and destroyed is the modelled step. |
| RefCounting.HandlesEffect | libwebrtc/src/api/scoped_refptr.h:78-160 | Counting aside, each operation points the handles where it says, for any aliasing, and leaves the others alone. |
| RefCounting.LooseEffect | libwebrtc/src/api/scoped_refptr.h:118-158 | And moves raw references as it says. |
| RefCounting.NewObjectEffect | libwebrtc/src/api/ref_counted_base.h:20-45 | A new object is alive with count 0 and nothing else changes. |
| ScopedRefptrs.RefCountedBase.AddRef | libwebrtc/src/api/ref_counted_base.h:27-27 | Adds one to the count. |
| ScopedRefptrs.RefCountedBase.Release | libwebrtc/src/api/ref_counted_base.h:28-34 | Takes one off and deletes the object iff none is left. |
| ScopedRefptrs.ScopedRefptr.Null | libwebrtc/src/api/scoped_refptr.h:78-79 | A handle to nothing. |
| ScopedRefptrs.ScopedRefptr.FromRaw | libwebrtc/src/api/scoped_refptr.h:81-84 | Construction from a raw pointer, as a step of the counting model. |
| ScopedRefptrs.ScopedRefptr.Copy | libwebrtc/src/api/scoped_refptr.h:86-95 | Copy construction, as a step of the counting model. |
| ScopedRefptrs.ScopedRefptr.Move | libwebrtc/src/api/scoped_refptr.h:98-101 | Move construction, as a step of the counting model. |
| ScopedRefptrs.ScopedRefptr.Destroy | libwebrtc/src/api/scoped_refptr.h:103-106 | The destructor, as a step of the counting model. |
| ScopedRefptrs.ScopedRefptr.Release | libwebrtc/src/api/scoped_refptr.h:118-122 | Hands out the reference without touching the count. |
| ScopedRefptrs.ScopedRefptr.AssignRaw | libwebrtc/src/api/scoped_refptr.h:124-132 | Assignment, AddRef first, for any aliasing of the pointers. |
| ScopedRefptrs.ScopedRefptr.Assign | libwebrtc/src/api/scoped_refptr.h:134-141 | Assignment from a handle, itself included. |
| ScopedRefptrs.ScopedRefptr.AssignMove | libwebrtc/src/api/scoped_refptr.h:143-152 | Move assignment from a handle, itself included. |
| ScopedRefptrs.ScopedRefptr.Swap | libwebrtc/src/api/scoped_refptr.h:160-160 | Exchanges the pointers of two handles, itself included. |
| ScopedRefptrs.ScopedRefptr.SwapRaw | libwebrtc/src/api/scoped_refptr.h:154-158 | Exchanges the pointer with a raw pointer variable, and with it the references the two own. |
| StatsIds.PrintedFormsAreUniqueExceptFor | libwebrtc/src/api/legacy_stats_types.cc:70-204 | Over all classes of identifiers, two print the same iff they are equal, are a local and a remote candidate of one id, or differ by a negative component read as a dash of the name. |
| StatsIds.NonNegativeComponentsNeverClash | libwebrtc/src/api/legacy_stats_types.cc:147-204 | With non-negative components only candidates clash. |
| StatsIds.ComponentIdsPrintTheSameExactlyWhen | libwebrtc/src/api/legacy_stats_types.cc:147-182 | Component identifiers with any content names print the same iff equal or one negative component is read as a dash of the other name. |
| StatsIds.CandidatePairIdsPrintTheSameExactlyWhen | libwebrtc/src/api/legacy_stats_types.cc:184-206 | The same for candidate-pair identifiers, whose indexes must also agree. |
| StatsIds.ClashesOccur | libwebrtc/src/api/legacy_stats_types.cc:137-206 | Unequal identifiers that print the same: a local and a remote candidate, components and pairs with a negative component. |
| StatsIds.PrintedTexts | libwebrtc/src/api/legacy_stats_types.cc:70-145 | The printed form of identifiers without numbers, one of each class. |
| StatsIds.PrintedIds | libwebrtc/src/api/legacy_stats_types.cc:96-206 | And with numbers, negative ones included. |
| StatsIds.EqualsIsEquality | libwebrtc/src/api/legacy_stats_types.cc:77-206 | Equals of every class is equality, given that the type fixes the class. |
| StatsCollections.MergeIsRightBiasedOverride | libwebrtc/src/api/legacy_stats_types.cc:854-870 | A merge keeps positions, appends new identifiers by first arrival, lets the latest report win, and every report, counted with multiplicity, ends up listed or deleted. |
| StatsCollections.EveryReportIsInOnePlace | libwebrtc/src/api/legacy_stats_types.cc:795-870 | After any run of any number of collections that detach from and merge into each other, every report ever allocated is in the list of one collection, detached or deleted, exactly once, and identifiers differ within each list. |
| StatsCollections.RunKeepsBalanced | libwebrtc/src/api/legacy_stats_types.cc:795-870 | Every run keeps all reports accounted for over all collections. |
| StatsCollections.StepKeepsAccounted | libwebrtc/src/api/legacy_stats_types.cc:816-870 | Insertion, replacement, detaching, merging and destruction each keep identifiers distinct and every allocated report in one place, here, detached, deleted or in another collection. |
| StatsCollections.StepEffect | libwebrtc/src/api/legacy_stats_types.cc:795-852 | What each operation does to the list: a new report comes last, a replacement takes the place of the one it replaces while every other position stays, detaching and destruction empty it. |
| StatsCollections.StatsCollection.Find | libwebrtc/src/api/legacy_stats_types.cc:874-880 | The first report with an equal identifier. |
| StatsCollections.StatsCollection.InsertNew | libwebrtc/src/api/legacy_stats_types.cc:816-822 | Appends a new report unless the identifier is there. |
| StatsCollections.StatsCollection.FindOrAddNew | libwebrtc/src/api/legacy_stats_types.cc:824-828 | Returns the report for the identifier, allocating one only if there was none. |
| StatsCollections.StatsCollection.ReplaceOrAddNew | libwebrtc/src/api/legacy_stats_types.cc:830-843 | Deletes and replaces in place, or appends. |
| StatsCollections.StatsCollection.DetachCollection | libwebrtc/src/api/legacy_stats_types.cc:845-852 | Hands all reports to the caller, leaving the list empty and nothing deleted. |
| StatsCollections.StatsCollection.MergeCollection | libwebrtc/src/api/legacy_stats_types.cc:854-870 | Mutating list and heap in place, reaches the ledger of the model's merge; the incoming reports are owned by the caller. |
| StatsCollections.StatsCollection.Destruct | libwebrtc/src/api/legacy_stats_types.cc:795-799 | Deletes every listed report. |
| HeaderExtensions.DeduplicateKeepsOnePerUri | libwebrtc/src/api/rtp_parameters.cc:277-316 | The result is sorted by (uri, encrypt, id), has unique URIs, and holds for each URI exactly the entry the filter selects. |
| HeaderExtensions.OrderIndependentExactlyWhen | libwebrtc/src/api/rtp_parameters.cc:277-316 | Every permutation of the input gives the same result iff no URI has selectable entries with different ids. |
| HeaderExtensions.DeduplicateTwiceChangesNothing | libwebrtc/src/api/rtp_parameters.cc:277-316 | Deduplication is idempotent. |
| TextOrder.FirstDifferenceDecides | libwebrtc/src/api/rtp_parameters.cc:307-313 | The order of URIs: the first differing character decides, a proper prefix comes first. |
| HeaderExtensions.LookupAgreesExactlyWhen | libwebrtc/src/api/rtp_parameters.cc:224-263 | Lookup in a list and in its deduplication agree iff encryption is not preferred, or the URI has an encrypted entry, or its first and last unencrypted entries are the same. |
| HeaderExtensions.LookupInResult | libwebrtc/src/api/rtp_parameters.cc:224-263 | Lookup in the deduplicated list always finds what was kept. |
| HeaderExtensions.FirstIsAtTheLowestPosition | libwebrtc/src/api/rtp_parameters.cc:265-275 | What lookup by encryption finds is at the lowest matching position. |
| HeaderExtensions.LastIsAtTheHighestPosition | libwebrtc/src/api/rtp_parameters.cc:242-249 | The fallback is at the highest. |
| HeaderExtensions.FallbackTakesTheLast | libwebrtc/src/api/rtp_parameters.cc:242-249 | Two unencrypted entries of one URI: lookup finds the last, lookup in the deduplicated list the first. |
| HeaderExtensions.HeaderExtensionWithUriExists | libwebrtc/src/api/rtp_parameters.cc:213-222 | Whether a URI occurs. |
| HeaderExtensions.FindHeaderExtensionByUriAndEncryption | libwebrtc/src/api/rtp_parameters.cc:265-275 | The first entry with URI and encryption. |
| HeaderExtensions.FindHeaderExtensionByUri | libwebrtc/src/api/rtp_parameters.cc:224-263 | The entry by filter, the last unencrypted one as fallback. |
| HeaderExtensions.AddMissingOfKind | libwebrtc/src/api/rtp_parameters.cc:283-305 | One filter loop adds the first entry of each URI still missing. |
| HeaderExtensions.DeduplicateHeaderExtensions | libwebrtc/src/api/rtp_parameters.cc:277-316 | Loops and sort compute the deduplication the lemmas above characterise. |
| FieldTrials.ParseAcceptsTheGrammar | libwebrtc/src/api/field_trials.cc:26-53 | A string is accepted iff it is a concatenation of key/value/ pieces of non-empty slash-free parts without a key bound to two values, and yields exactly their map. |
| FieldTrials.PrintedTrialsParseBack | libwebrtc/src/api/field_trials.cc:37-53 | Valid trials printed in any order parse back to themselves. |
| FieldTrials.ConcatenationIsUnion | libwebrtc/src/api/field_trials.cc:37-53 | Two accepted strings in a row are accepted iff they agree on shared keys, and give the union. |
| FieldTrials.StringifyNeverParsesBack | libwebrtc/src/api/field_trials.h:88-99 | The log form is accepted iff there are no trials. |
| FieldTrials.PrintedAndLogged | libwebrtc/src/api/field_trials.h:88-99 | The accepted form and the log form of two trials, side by side. |
| FieldTrials.TrialsOfEveryLife | libwebrtc/src/api/field_trials.h:88-99 | The last two for every set of trials reachable by creation, Set and Merge. |
| FieldTrials.LifeKeepsValid | libwebrtc/src/api/field_trials.cc:57-86 | Keys and values stay non-empty and slash-free. |
| FieldTrials.SetEffect | libwebrtc/src/api/field_trials.cc:77-86 | Set passes iff the trial is named and neither part has a slash; then lookup gives the group, an empty one removing the trial, and every other trial is as before. |
| FieldTrials.GroupsOfEveryLife | libwebrtc/src/api/field_trials.cc:57-95 | After any life a trial has the group of the last Set that names it, or of the merged set that has it, or of the text it began with. |
| FieldTrials.ParseInto | libwebrtc/src/api/field_trials.cc:37-53 | The loop accepts and yields what the recursive parse does, which the grammar theorem characterises. |
| FieldTrials.FieldTrialSet.Create | libwebrtc/src/api/field_trials.cc:57-65 | Trials iff the string is accepted. |
| FieldTrials.FieldTrialSet.Merge | libwebrtc/src/api/field_trials.cc:71-75 | The other trials win, aliasing included. |
| FieldTrials.FieldTrialSet.Set | libwebrtc/src/api/field_trials.cc:77-86 | Sets or, for an empty group, removes a trial; checks its arguments. |
| FieldTrials.FieldTrialSet.GetValue | libwebrtc/src/api/field_trials.cc:88-95 | The value, empty iff there is none. |
| FieldTrials.FieldTrialSet.Stringify | libwebrtc/src/api/field_trials.h:88-99 | Writes the log form of the trials in the order of their keys, which parses back only if empty. |
| FieldTrials.OneListingInOrder | libwebrtc/src/api/field_trials.h:85-99 | There is one such order, so the log form is determined by the trials. |
| AudioLevels.LevelHasClosedForm | libwebrtc/src/audio/audio_level.cc:55-82 | After any number of calls the level is the maximum over complete windows of their peaks shifted right by two bits per window since, and the running maximum continues it. |
| AudioLevels.LevelIsTheLargestLeft | libwebrtc/src/audio/audio_level.cc:55-82 | On single peaks: the level is at least every peak of a complete window, shifted right by two bits per window since, and equals one of these unless it is zero. |
| AudioLevels.MeterOfCalls | libwebrtc/src/audio/audio_level.cc:55-95 | The calls of the object, with energy and duration, drive the meter to that closed form. |
| AudioLevels.EightSilentWindowsSuffice | libwebrtc/src/audio/audio_level.cc:71-82 | Eight silent windows bring any level to zero. |
| AudioLevels.SevenSilentWindowsDoNotSuffice | libwebrtc/src/audio/audio_level.cc:71-82 | Seven do not after full scale. |
| AudioLevels.EnergyIsBounded | libwebrtc/src/audio/audio_level.cc:84-94 | Over any calls with non-negative durations 0 <= energy <= duration. |
| AudioLevels.EnergyIsTheSum | libwebrtc/src/audio/audio_level.cc:84-94 | Over any calls energy is the sum of each call's energy at the level it leads to, duration the sum of durations. |
| AudioLevels.EnergyOfALevel | libwebrtc/src/audio/audio_level.cc:84-94 | One call contributes (level / 32767) squared times its duration. |
| AudioLevels.LevelChangesEveryEleventhCall | libwebrtc/src/audio/audio_level.cc:71-82 | With every eleventh call the level is set to the peak so far, in between it stays. |
| AudioLevels.MaxAbsIsTheLargestMagnitude | libwebrtc/src/common_audio/signal_processing/min_max_operations.c:38-58 | The peak of a frame is the magnitude of one of its samples and exceeded by none, -32768 counting as 32767. |
| AudioLevels.AudioLevel.ComputeLevel | libwebrtc/src/audio/audio_level.cc:55-95 | A call updates level, energy and duration as the model with the closed form and the energy bound does, muted frames counting as silence. |
| AudioLevels.AudioLevel.MaxAbsValueW16 | libwebrtc/src/common_audio/signal_processing/min_max_operations.c:38-58 | The largest absolute sample, capped. |
| AudioLevels.AudioLevel.Reset | libwebrtc/src/audio/audio_level.cc:24-31 | Back to the initial state. |
| AudioLevels.AudioLevel.ResetLevelFullRange | libwebrtc/src/audio/audio_level.cc:38-43 | Level back to the initial state, energy kept. |
| CandidatePriority.PriorityIsTheWeightedSum | libwebrtc/src/api/candidate.cc:139-180 | Shifts and ORs give the weighted sum of section 4.1.2.1 of RFC 5245, within 31 bits, and the check passes. |
| CandidatePriority.PriorityOnInputs | libwebrtc/src/api/candidate.cc:139-180 | The sum on the inputs: 256 adapter + address + server preference, plus 32 for unrelayed candidates with the adjustment, as local preference. |
| CandidatePriority.PriorityIsRefusedExactlyWhen | libwebrtc/src/api/candidate.cc:174-174 | The check fires iff the local preference plus 32 does not fit 16 bits. |
| CandidatePriority.PackDecodes | libwebrtc/src/api/candidate.cc:179-179 | The three fields can be read back. |
| CandidatePriority.PriorityIsLexicographic | libwebrtc/src/api/candidate.cc:139-180 | Priorities order by type preference, local preference and lower component, and are equal iff all three are. |
| CandidatePriority.RelayIsNotAheadExactlyWhen | libwebrtc/src/api/candidate.cc:164-177 | With equal adapter, address and component the STUN priority of a relay is no higher than that of a non-relay candidate iff the adjustment is on or its server preference is no higher. |
| CandidatePriority.ComponentZeroSpills | libwebrtc/src/api/candidate.cc:179-179 | For component 0 the ORs give the sum iff the local preference is even. |
| EventLogFile.CappedLog | libwebrtc/src/api/rtc_event_log_output_file.cc:62-83 | Over every run of a limited file the accepted outputs are a first stretch of the attempts, stored whole and in order, their total is the count and within the cap, a refusal for capacity writes nothing, and the first refusal is the last event. |
| EventLogFile.UnlimitedLog | libwebrtc/src/api/rtc_event_log_output_file.cc:62-83 | A cap of 0 is none: every output taken whole is stored whole and in order, nothing is refused for its size, and only the count wraps around. |
| EventLogFile.LogFromCreation | libwebrtc/src/api/rtc_event_log_output_file.cc:49-83 | From creation on: which caps are refused, what the file holds after any run, and that the next write trips a check exactly if an attempt was refused before or the output is half the range of size_t or longer. |
| EventLogFile.SumDoesNotOverflow | libwebrtc/src/api/rtc_event_log_output_file.cc:27-32 | The sum compared with the cap never overflows size_t. |
| EventLogFile.RtcEventLogOutputFile.constructor | libwebrtc/src/api/rtc_event_log_output_file.cc:49-56 | An empty file with a reasonable cap. |
| EventLogFile.RtcEventLogOutputFile.Write | libwebrtc/src/api/rtc_event_log_output_file.cc:62-83 | One attempt on the file: stored whole and counted, or refused and closed, as in the run theorem. |

## Left out

- The target bitrate a codec configuration hands to the encoder: allocations overwrite it asynchronously.
- Registration of header extensions, CNAME, MID, frame encryptor and transformer in ConfigureStream: passed on without
  a state of their own here.
- The callback that reports the outcome of Reconfigure, logging, tracing, thread checks and GetStats.
- Infinite rates and the range of the conversions of allocator rates to 32 bits.
- The bitrate allocator beyond remembering its observers, and its immediate callbacks, which change no stream state.
- The sampling, mixing, resampling and processing of audio, and the encoders' coding.
- The check on the comfort-noise interval against the encoder's longest packet.
- Destruction of an object that itself holds handles: the counting model deletes one object at a time.
- Memory ordering of the atomic counter: AddRef and Release are single steps.
- Values inside a statistics report, and the collection's iterators.
- HeaderExtensions.DeduplicateHeaderExtensions: std::sort is an insertion sort, which gives the same list since the order
  is total.
- Candidate foundations, random ids and IP address classes: the address precedence is an input.
