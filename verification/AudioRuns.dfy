/** The theorems about whole runs of a call's audio streams. */
module AudioRuns {
  import opened Basics
  import opened AudioEncoders
  import opened SendStream
  import opened SendStreamInvariants
  import opened SendStreamRates
  import opened SendStreamRanges
  import opened SendStreamCaches
  import opened SendStreamEncoder
  import opened SendStreamChecks
  import opened AudioWorld
  import Shared = AudioState

  // ---------------------------------------------------------------- safety of every run

  lemma {:induction false} RunKeepsConsistent(w: World, ops: seq<Op>)
    requires Consistent(w) && Run(w, ops).Ok?
    ensures var w' := Run(w, ops).value;
            && Consistent(w')
            && (Shared.Running(w.audio) && (forall op :: op in ops ==> DeviceWilling(op)) ==> Shared.Running(w'.audio))
    decreases ops
  {
    if ops == [] {
    } else {
      StepKeepsConsistent(w, ops[0]);
      RunKeepsConsistent(AudioWorld.Step(w, ops[0]).value, ops[1..]);
    }
  }

  /** Playout: after any run the poller runs exactly when a stream receives and playout is off, the device plays only
      when a stream receives and playout is on, so they never pull together; with a willing device one of them does
      whenever a stream receives. */
  lemma PlayoutSafety(ops: seq<Op>)
    requires Run(EMPTY, ops).Ok?
    ensures var a := Run(EMPTY, ops).value.audio;
            && (a.pollerRunning <==> a.receiving != {} && !a.playoutEnabled)
            && (a.devicePlaying ==> a.receiving != {} && a.playoutEnabled)
            && (a.deviceRecording ==> a.sending != map[] && a.recordingEnabled)
            && !(a.pollerRunning && a.devicePlaying)
            && ((forall op :: op in ops ==> DeviceWilling(op)) ==>
                  && (a.receiving != {} <==> a.pollerRunning || a.devicePlaying)
                  && (a.deviceRecording <==> a.sending != map[] && a.recordingEnabled))
  {
    Shared.InitialIsSafe();
    RunKeepsConsistent(EMPTY, ops);
    Shared.OnePuller(Run(EMPTY, ops).value.audio);
  }

  /** Agreement: after any run the shared audio state lists exactly the streams that send and those that play, each
      send stream with the properties of its encoder, and the transport serves exactly the sending ones. */
  lemma CrossObjectAgreement(ops: seq<Op>)
    requires Run(EMPTY, ops).Ok?
    ensures var w := Run(EMPTY, ops).value;
            && (forall i :: i in w.audio.sending <==> i in w.sends && w.sends[i].sending)
            && (forall i :: i in w.audio.sending && w.sends[i].encoder.Some? ==>
                  w.audio.sending[i] == Shared.StreamProperties(SampleRateHz(w.sends[i].encoder.value),
                                                                NumChannels(w.sends[i].encoder.value)))
            && (forall i :: i in w.audio.receiving <==> i in w.receives && w.receives[i])
            && Shared.Describes(w.audio.transport, w.audio.sending)
  {
    Shared.InitialIsSafe();
    RunKeepsConsistent(EMPTY, ops);
    var w := Run(EMPTY, ops).value;
    forall i | i in w.sends
      ensures Invariant(MachineOf(w, i))
    {
    }
  }

  /** Registration: after any run the allocator knows exactly the registered streams, all of them send, and a sending
      stream is registered exactly if its RTP module was told so. */
  lemma RegistrationInEveryRun(ops: seq<Op>)
    requires Run(EMPTY, ops).Ok?
    ensures var w := Run(EMPTY, ops).value;
            && (forall i :: i in w.allocator <==> i in w.sends && w.sends[i].registered)
            && (forall i :: i in w.sends && w.sends[i].registered ==> w.sends[i].sending)
            && (forall i :: i in w.sends && w.sends[i].sending ==>
                  (w.sends[i].registered <==> w.sends[i].partOfAllocation))
  {
    Shared.InitialIsSafe();
    RunKeepsConsistent(EMPTY, ops);
    var w := Run(EMPTY, ops).value;
    forall i | i in w.sends
      ensures Invariant(MachineOf(w, i))
    {
    }
  }

  /** The membership checks of the audio state never fire: an existing stream can always be started and stopped. */
  lemma MembershipChecksNeverFire(ops: seq<Op>, id: StreamId, dev: Shared.DeviceAnswer)
    requires Run(EMPTY, ops).Ok?
    ensures var w := Run(EMPTY, ops).value;
            && (id in w.receives ==>
                  AudioWorld.Step(w, StartReceive(id, dev)).Ok? && AudioWorld.Step(w, StopReceive(id)).Ok?)
            && (id in w.sends ==> AudioWorld.Step(w, SendCall(id, Stop)).Ok?)
  {
    CrossObjectAgreement(ops);
  }

  /** A captured frame reaches every stream that sends exactly once, and no other. */
  lemma CapturedFramesReachTheSendingStreams(ops: seq<Op>, id: StreamId)
    requires Run(EMPTY, ops).Ok?
    ensures var w := Run(EMPTY, ops).value;
            multiset(Shared.Recipients(w.audio.transport))[id] == if id in w.sends && w.sends[id].sending then 1 else 0
  {
    CrossObjectAgreement(ops);
    var w := Run(EMPTY, ops).value;
    Shared.FramesReachEverySenderOnce(w.audio.transport, w.audio.sending, id);
  }

  /** Once nobody sends or plays, the checks of the audio state's destructor pass and the device is idle. */
  lemma TeardownChecksPass(ops: seq<Op>)
    requires Run(EMPTY, ops).Ok?
    requires var w := Run(EMPTY, ops).value;
             && (forall i :: i in w.sends ==> !w.sends[i].sending)
             && (forall i :: i in w.receives ==> !w.receives[i])
    ensures var a := Run(EMPTY, ops).value.audio;
            a.receiving == {} && a.sending == map[] && !a.pollerRunning && !a.devicePlaying && !a.deviceRecording
  {
    CrossObjectAgreement(ops);
    PlayoutSafety(ops);
    var a := Run(EMPTY, ops).value.audio;
    assert forall i :: i !in a.receiving;
    assert forall i :: i !in a.sending;
  }

  // ---------------------------------------------------------------- caches over runs

  datatype Cache = AllocatorEntry | Registration | LiveEncoder | CopiedFrames

  predicate Current(c: Cache, m: Machine) {
    match c
    case AllocatorEntry => EntryCurrent(m)
    case Registration => RegistrationCurrent(m)
    case LiveEncoder => EncoderCurrent(m.stream)
    case CopiedFrames => FramesCopied(m.stream)
  }

  predicate AllCurrent(c: Cache, w: World) {
    forall i :: i in w.sends ==> Current(c, MachineOf(w, i))
  }

  function OverheadAfter(s: Stream, call: Call): nat {
    match call
    case Reconfigure(_, rtp, _) => s.transportOverhead + rtp
    case SetTransportOverhead(bytes, rtp) => bytes + rtp
    case DeliverRtcp(rtp) => s.transportOverhead + rtp
    case _ => s.overheadPerPacket
  }

  /** The condition under which a call leaves a cache current: on the stream before the call and the call alone. */
  predicate Follows(c: Cache, s: Stream, call: Call) {
    match c
    case AllocatorEntry => call.Reconfigure? ==> EntryFollows(s, call.config, call.rtpOverhead)
    case Registration => call.Reconfigure? && s.sending ==> RegistrationFollows(s.settings, s.config, call.config)
    case LiveEncoder =>
      if call.Reconfigure? then EncoderFollows(s, call.config, OverheadAfter(s, call))
      else OverheadAfter(s, call) == s.overheadPerPacket || EncoderFollows(s, s.config, OverheadAfter(s, call))
    case CopiedFrames => call.Encode? && s.encoder.Some? ==> FramesAreSettled(Core(s.encoder.value))
  }

  /** An adaptor hides the frame lengths of the moment; without one, none are waiting to be taken up. */
  predicate FramesAreSettled(speech: Encoder)
    requires speech.Speech?
  {
    speech.adaptor.Some? || speech.frames.next == speech.frames.current
  }

  lemma CallKeepsCurrentExactlyWhen(c: Cache, m: Machine, call: Call)
    requires Invariant(m) && Current(c, m) && SendStream.Step(m, call).Ok?
    ensures Current(c, SendStream.Step(m, call).value) <==> Follows(c, m.stream, call)
  {
    match c
    case AllocatorEntry =>
      if call.Reconfigure? {
        ReconfigureKeepsEntryCurrentExactlyWhen(m, call.config, call.rtpOverhead, call.dev);
      } else {
        OtherCallsKeepEntryCurrent(m, call);
      }
    case Registration =>
      if call.Reconfigure? {
        ReconfigureKeepsRegistrationCurrentExactlyWhen(m, call.config, call.rtpOverhead, call.dev);
      } else {
        OtherCallsKeepRegistrationCurrent(m, call);
      }
    case LiveEncoder =>
      if call.Reconfigure? {
        ReconfigureKeepsEncoderCurrentExactlyWhen(m, call.config, call.rtpOverhead, call.dev);
      } else {
        OtherCallsKeepEncoderCurrentExactlyWhen(m, call);
        OverheadAfterCall(m, call);
      }
    case CopiedFrames =>
      FramesCopiedExactlyWhen(m, call);
      if m.stream.encoder.Some? {
        FramesOfCore(m.stream.encoder.value);
      }
  }

  lemma OverheadAfterCall(m: Machine, call: Call)
    requires Invariant(m) && SendStream.Step(m, call).Ok? && !call.Reconfigure?
    ensures SendStream.Step(m, call).value.stream.overheadPerPacket == OverheadAfter(m.stream, call)
  {
  }

  /** Only calls on existing send streams can put a cache out of date. */
  ghost predicate OpFollows(c: Cache, w: World, op: Op) {
    op.SendCall? && op.id in w.sends ==> Follows(c, w.sends[op.id], op.call)
  }

  /** In every state of the run, every stream has the cache current. */
  ghost predicate AlwaysCurrent(c: Cache, w: World, ops: seq<Op>)
    decreases ops
  {
    && AllCurrent(c, w)
    && (ops != [] && AudioWorld.Step(w, ops[0]).Ok? ==> AlwaysCurrent(c, AudioWorld.Step(w, ops[0]).value, ops[1..]))
  }

  /** Every call of the run meets the condition of the cache. */
  ghost predicate AlwaysFollows(c: Cache, w: World, ops: seq<Op>)
    decreases ops
  {
    ops != [] && AudioWorld.Step(w, ops[0]).Ok? ==>
      && OpFollows(c, w, ops[0])
      && AlwaysFollows(c, AudioWorld.Step(w, ops[0]).value, ops[1..])
  }

  /** What another stream's call leaves alone stays as current as it was. */
  lemma CurrentIsLocal(c: Cache, m: Machine, m': Machine)
    requires m'.id == m.id && m'.stream == m.stream
    requires m.id in m'.allocator <==> m.id in m.allocator
    requires m.id in m.allocator ==> m'.allocator[m.id] == m.allocator[m.id]
    ensures Current(c, m') <==> Current(c, m)
  {
  }

  lemma WriteBackKeepsOthersCurrent(c: Cache, w: World, m: Machine, m': Machine)
    requires AllCurrent(c, w)
    requires m == Machine(m.id, m.stream, w.audio, w.allocator, w.pacesAudio)
    requires OthersUntouched(m, m')
    ensures AllCurrent(c, WithMachine(w, m')) <==> Current(c, m')
  {
    var w' := WithMachine(w, m');
    assert MachineOf(w', m.id) == m';
    forall i | i in w'.sends && i != m.id
      ensures Current(c, MachineOf(w', i))
    {
      OtherMachineUntouched(m, m', i);
      CurrentIsLocal(c, MachineOf(w, i), MachineOf(w', i));
    }
  }

  lemma StepKeepsAllCurrentExactlyWhen(c: Cache, w: World, op: Op)
    requires Consistent(w) && AllCurrent(c, w) && AudioWorld.Step(w, op).Ok?
    ensures AllCurrent(c, AudioWorld.Step(w, op).value) <==> OpFollows(c, w, op)
  {
    match op
    case SendCall(id, call) =>
      var m := MachineOf(w, id);
      StepKeepsInvariant(m, call);
      CallKeepsCurrentExactlyWhen(c, m, call);
      WriteBackKeepsOthersCurrent(c, w, m, SendStream.Step(m, call).value);
    case CreateSend(id, settings, config, rtp, dev) =>
      CreationIsCurrent(c, w, op);
    case _ => OtherOpsKeepCurrent(c, w, op);
  }

  lemma CreationIsCurrent(c: Cache, w: World, op: Op)
    requires op.CreateSend?
    requires Consistent(w) && AllCurrent(c, w) && AudioWorld.Step(w, op).Ok?
    ensures AllCurrent(c, AudioWorld.Step(w, op).value)
  {
    var m := NewMachine(w, op.id, op.settings);
    var call := Reconfigure(op.config, op.rtpOverhead, op.dev);
    NewMachineInvariant(w, op.id, op.settings);
    ConfigureKeepsInvariant(m, op.config, op.rtpOverhead, op.dev);
    CallKeepsCurrentExactlyWhen(c, m, call);
    WriteBackKeepsOthersCurrent(c, w, m, SendStream.Step(m, call).value);
  }

  lemma OtherOpsKeepCurrent(c: Cache, w: World, op: Op)
    requires !op.CreateSend? && !op.SendCall?
    requires AllCurrent(c, w) && AudioWorld.Step(w, op).Ok?
    ensures AllCurrent(c, AudioWorld.Step(w, op).value)
  {
    var w' := AudioWorld.Step(w, op).value;
    OtherOpsKeepStreams(w, op);
    forall i | i in w'.sends
      ensures Current(c, MachineOf(w', i))
    {
      CurrentIsLocal(c, MachineOf(w, i), MachineOf(w', i));
    }
  }

  /** The caches over runs: a cache is current in every state of a run exactly if every call met its condition. */
  lemma {:induction false} CachesStayCurrentExactlyWhen(c: Cache, w: World, ops: seq<Op>)
    requires Consistent(w) && AllCurrent(c, w)
    ensures AlwaysCurrent(c, w, ops) <==> AlwaysFollows(c, w, ops)
    decreases ops
  {
    if ops == [] || AudioWorld.Step(w, ops[0]).CheckFailed? {
    } else {
      var w' := AudioWorld.Step(w, ops[0]).value;
      StepKeepsAllCurrentExactlyWhen(c, w, ops[0]);
      StepKeepsConsistent(w, ops[0]);
      if AllCurrent(c, w') {
        CachesStayCurrentExactlyWhen(c, w', ops[1..]);
      }
    }
  }

  lemma CachesOfEveryRun(c: Cache, ops: seq<Op>)
    ensures AlwaysCurrent(c, EMPTY, ops) <==> AlwaysFollows(c, EMPTY, ops)
  {
    Shared.InitialIsSafe();
    CachesStayCurrentExactlyWhen(c, EMPTY, ops);
  }

  // ---------------------------------------------------------------- runs that keep every cache current

  /** Conditions that are easy to meet. For the entry: the encoder's ranges change only together with a compared field.
      For the registration: allocation is tied to feedback and the DSCP flag stays. For the encoder: a known format, no
      comfort noise, no adaptor change on the live encoder and an overhead that does not vanish. For the frame lengths:
      none picked by a former adaptor are waiting to be taken up. */
  predicate Plain(c: Cache, s: Stream, call: Call) {
    match c
    case AllocatorEntry =>
      call.Reconfigure? && AllocationFieldsEqual(s.config, call.config) ==>
        FramesAfter(s, call.config) == s.frameLengths && RatesAfter(s, call.config) == s.bitrateRange
    case Registration =>
      call.Reconfigure? ==> !s.settings.allocateWithoutFeedback && call.config.hasDscp == s.config.hasDscp
    case LiveEncoder =>
      if call.Reconfigure? then
        call.config.codec.Some? ==>
          && call.config.codec.value.format in s.settings.factory
          && NoComfortNoise(call.config) && 0 < OverheadAfter(s, call)
          && (s.config.codec.Some? ==> NoComfortNoise(s.config) && call.config.adaptorConfig == s.config.adaptorConfig)
      else
        OverheadAfter(s, call) == s.overheadPerPacket || (NoComfortNoise(s.config) && 0 < OverheadAfter(s, call))
    case CopiedFrames => s.encoder.Some? ==> FramesAreSettled(Core(s.encoder.value))
  }

  predicate NoComfortNoise(config: Config) {
    config.codec.Some? ==> config.codec.value.cngPayloadType.None?
  }

  lemma PlainConditionsSuffice(c: Cache, m: Machine, call: Call)
    requires Invariant(m) && Current(c, m) && Plain(c, m.stream, call)
    ensures Follows(c, m.stream, call)
  {
    var s := m.stream;
    if c.AllocatorEntry? && call.Reconfigure? {
      EntryExists(s.settings, s.config, s.overheadPerPacket, s.frameLengths, s.bitrateRange);
      EntryExists(s.settings, s.config, s.transportOverhead + call.rtpOverhead, s.frameLengths, s.bitrateRange);
    }
  }

  ghost predicate AlwaysPlain(c: Cache, w: World, ops: seq<Op>)
    decreases ops
  {
    ops != [] && AudioWorld.Step(w, ops[0]).Ok? ==>
      && (ops[0].SendCall? ==> Plain(c, w.sends[ops[0].id], ops[0].call))
      && AlwaysPlain(c, AudioWorld.Step(w, ops[0]).value, ops[1..])
  }

  /** Plain runs never put a cache out of date. */
  lemma {:induction false} PlainRunsStayCurrent(c: Cache, w: World, ops: seq<Op>)
    requires Consistent(w) && AllCurrent(c, w) && AlwaysPlain(c, w, ops)
    ensures AlwaysCurrent(c, w, ops)
    decreases ops
  {
    if ops == [] || AudioWorld.Step(w, ops[0]).CheckFailed? {
    } else {
      if ops[0].SendCall? {
        PlainConditionsSuffice(c, MachineOf(w, ops[0].id), ops[0].call);
      }
      StepKeepsAllCurrentExactlyWhen(c, w, ops[0]);
      StepKeepsConsistent(w, ops[0]);
      PlainRunsStayCurrent(c, AudioWorld.Step(w, ops[0]).value, ops[1..]);
    }
  }

  /** The allocator entry of every stream is current in every state of a run in which encoder ranges change only
      together with a compared field. */
  lemma EntriesOfPlainRuns(ops: seq<Op>)
    requires AlwaysPlain(AllocatorEntry, EMPTY, ops)
    ensures AlwaysCurrent(AllocatorEntry, EMPTY, ops)
  {
    Shared.InitialIsSafe();
    PlainRunsStayCurrent(AllocatorEntry, EMPTY, ops);
  }

  /** A stream keeps the DSCP flag it was created with. */
  ghost predicate DscpFixed(w: World, ops: seq<Op>)
    decreases ops
  {
    ops != [] && AudioWorld.Step(w, ops[0]).Ok? ==>
      && (ops[0].SendCall? && ops[0].call.Reconfigure? ==>
            ops[0].call.config.hasDscp == w.sends[ops[0].id].config.hasDscp)
      && DscpFixed(AudioWorld.Step(w, ops[0]).value, ops[1..])
  }

  predicate FeedbackRequired(w: World) {
    forall i :: i in w.sends ==> !w.sends[i].settings.allocateWithoutFeedback
  }

  predicate CreatedWithFeedback(op: Op) {
    op.CreateSend? ==> !op.settings.allocateWithoutFeedback
  }

  lemma StepKeepsFeedbackRequired(w: World, op: Op)
    requires Consistent(w) && FeedbackRequired(w) && CreatedWithFeedback(op) && AudioWorld.Step(w, op).Ok?
    ensures FeedbackRequired(AudioWorld.Step(w, op).value)
  {
    match op
    case SendCall(id, call) => StepKeepsInvariant(MachineOf(w, id), call);
    case CreateSend(id, settings, config, rtp, dev) =>
      NewMachineInvariant(w, id, settings);
      ConfigureKeepsInvariant(NewMachine(w, id, settings), config, rtp, dev);
    case _ => OtherOpsKeepStreams(w, op);
  }

  lemma {:induction false} FixedDscpIsPlain(w: World, ops: seq<Op>)
    requires Consistent(w) && FeedbackRequired(w) && DscpFixed(w, ops)
    requires forall op :: op in ops ==> CreatedWithFeedback(op)
    ensures AlwaysPlain(Registration, w, ops)
    decreases ops
  {
    if ops == [] || AudioWorld.Step(w, ops[0]).CheckFailed? {
    } else {
      StepKeepsFeedbackRequired(w, ops[0]);
      StepKeepsConsistent(w, ops[0]);
      FixedDscpIsPlain(AudioWorld.Step(w, ops[0]).value, ops[1..]);
    }
  }

  /** With allocation tied to feedback and DSCP flags that stay as created, a sending stream is registered exactly while
      it is eligible, in every state of every run. */
  lemma RegistrationWithFixedDscp(ops: seq<Op>)
    requires DscpFixed(EMPTY, ops) && (forall op :: op in ops ==> CreatedWithFeedback(op))
    ensures AlwaysCurrent(Registration, EMPTY, ops)
  {
    Shared.InitialIsSafe();
    FixedDscpIsPlain(EMPTY, ops);
    PlainRunsStayCurrent(Registration, EMPTY, ops);
  }

  // ---------------------------------------------------------------- checks over runs

  /** Objects are created once, used while they exist and stopped before they are destroyed, and no call on a send
      stream trips a check of its own. */
  predicate OpPasses(w: World, op: Op) {
    match op
    case CreateSend(id, settings, config, rtp, dev) =>
      id !in w.sends && Passes(NewStream(settings), Reconfigure(config, rtp, dev))
    case DestroySend(id) => id in w.sends && !w.sends[id].sending
    case SendCall(id, call) => id in w.sends && Passes(w.sends[id], call)
    case CreateReceive(id) => id !in w.receives
    case DestroyReceive(id) => id in w.receives
    case StartReceive(id, _) => id in w.receives
    case StopReceive(id) => id in w.receives
    case SetPlayout(_, _) => true
    case SetRecording(_, _) => true
  }

  /** Among them the membership checks of the audio state, which never fire on existing streams. */
  lemma OpPassesExactlyWhen(w: World, op: Op)
    requires Consistent(w)
    ensures AudioWorld.Step(w, op).Ok? <==> OpPasses(w, op)
  {
    match op
    case CreateSend(id, settings, config, rtp, dev) =>
      if id !in w.sends {
        NewMachineInvariant(w, id, settings);
        ConfigurePassesExactlyWhen(NewMachine(w, id, settings), config, rtp, dev);
      }
    case SendCall(id, call) =>
      if id in w.sends {
        CallPassesExactlyWhen(MachineOf(w, id), call);
      }
    case _ => ReceiveOpPassesExactlyWhen(w, op);
  }

  lemma ReceiveOpPassesExactlyWhen(w: World, op: Op)
    requires !op.CreateSend? && !op.SendCall? && Consistent(w)
    ensures AudioWorld.Step(w, op).Ok? <==> OpPasses(w, op)
  {
  }

  ghost predicate AlwaysPasses(w: World, ops: seq<Op>)
    decreases ops
  {
    ops != [] ==>
      && OpPasses(w, ops[0])
      && (AudioWorld.Step(w, ops[0]).Ok? ==> AlwaysPasses(AudioWorld.Step(w, ops[0]).value, ops[1..]))
  }

  /** A run gets through exactly if every operation meets its condition in the state it finds. */
  lemma {:induction false} RunPassesExactlyWhen(w: World, ops: seq<Op>)
    requires Consistent(w)
    ensures Run(w, ops).Ok? <==> AlwaysPasses(w, ops)
    decreases ops
  {
    if ops == [] {
    } else {
      OpPassesExactlyWhen(w, ops[0]);
      if AudioWorld.Step(w, ops[0]).Ok? {
        StepKeepsConsistent(w, ops[0]);
        RunPassesExactlyWhen(AudioWorld.Step(w, ops[0]).value, ops[1..]);
      }
    }
  }

  // ---------------------------------------------------------------- sound runs

  predicate AllReady(w: World) {
    forall i :: i in w.sends ==> Ready(w.sends[i])
  }

  /** What concerns existence and lifetime, and sound configurations. */
  predicate OpSound(w: World, op: Op) {
    match op
    case CreateSend(id, settings, config, _, _) =>
      id !in w.sends && FactorySound(settings) && ConfigSound(settings, config)
    case SendCall(id, call) => id in w.sends && CallSound(w.sends[id], call)
    case _ => OpPasses(w, op)
  }

  ghost predicate AlwaysSound(w: World, ops: seq<Op>)
    decreases ops
  {
    ops != [] ==>
      && OpSound(w, ops[0])
      && (AudioWorld.Step(w, ops[0]).Ok? ==> AlwaysSound(AudioWorld.Step(w, ops[0]).value, ops[1..]))
  }

  lemma SoundOpPasses(w: World, op: Op)
    requires Consistent(w) && AllReady(w) && OpSound(w, op)
    ensures OpPasses(w, op)
  {
    match op
    case SendCall(id, call) => SoundCallsPass(MachineOf(w, id), call);
    case CreateSend(id, settings, config, rtp, dev) =>
      NewMachineInvariant(w, id, settings);
      SoundCallsPass(NewMachine(w, id, settings), Reconfigure(config, rtp, dev));
    case _ =>
  }

  lemma SoundOpKeepsReady(w: World, op: Op)
    requires Consistent(w) && AllReady(w) && OpSound(w, op) && AudioWorld.Step(w, op).Ok?
    ensures AllReady(AudioWorld.Step(w, op).value)
  {
    match op
    case SendCall(id, call) =>
      SoundCallsKeepReady(MachineOf(w, id), call);
      StepKeepsInvariant(MachineOf(w, id), call);
    case CreateSend(id, settings, config, rtp, dev) =>
      NewMachineInvariant(w, id, settings);
      ConfiguredIsReady(NewMachine(w, id, settings), config, rtp, dev);
      ConfigureKeepsInvariant(NewMachine(w, id, settings), config, rtp, dev);
    case _ => OtherOpsKeepStreams(w, op);
  }

  /** Sound operations meet their conditions wherever a sound run leads. */
  lemma {:induction false} SoundRunsPass(w: World, ops: seq<Op>)
    requires Consistent(w) && AllReady(w) && AlwaysSound(w, ops)
    ensures AlwaysPasses(w, ops) && Run(w, ops).Ok? && AllReady(Run(w, ops).value)
    decreases ops
  {
    if ops == [] {
    } else {
      SoundOpPasses(w, ops[0]);
      OpPassesExactlyWhen(w, ops[0]);
      SoundOpKeepsReady(w, ops[0]);
      StepKeepsConsistent(w, ops[0]);
      SoundRunsPass(AudioWorld.Step(w, ops[0]).value, ops[1..]);
    }
  }
}
