/** The one flag that says whether audio packets count for the paced sender, set and cleared by all send streams:
    exactly which runs keep it set while a stream takes part in bitrate allocation. */
module AudioPacing {
  import opened Basics
  import opened SendStream
  import opened SendStreamInvariants
  import opened SendStreamCaches
  import opened SendStreamExamples
  import opened AudioWorld
  import Shared = AudioState

  /** As long as some stream is registered, audio packets are accounted for. */
  predicate Paced(w: World) {
    forall i :: i in w.sends && w.sends[i].registered ==> w.pacesAudio
  }

  /** The Reconfigure that clears the flag: a compared field changes on a sending stream that is then not to take part
      in allocation, whether it did before or not. */
  predicate TakesOut(s: Stream, call: Call) {
    && call.Reconfigure? && s.sending
    && !AllocationFieldsEqual(s.config, call.config)
    && !(WantsAllocation(call.config) && TransportSeqNumId(call.config) != 0)
  }

  /** The flag is cleared only when no other stream is registered. */
  predicate PacingFollows(w: World, op: Op) {
    op.SendCall? && op.id in w.sends && TakesOut(w.sends[op.id], op.call) ==>
      forall i :: i in w.sends && i != op.id ==> !w.sends[i].registered
  }

  lemma FlagAfterObserverStage(m: Machine, config: Config)
    requires RegistrationAgrees(m) && ObserverStage(m, config).Ok?
    ensures var m' := ObserverStage(m, config).value;
            var out := && m.stream.sending && !AllocationFieldsEqual(m.stream.config, config)
                       && !(WantsAllocation(config) && TransportSeqNumId(config) != 0);
            if out then !m'.pacesAudio && !m'.stream.registered
            else (m.pacesAudio ==> m'.pacesAudio) && (m'.stream.registered ==> m'.pacesAudio || m.stream.registered)
  {
  }

  lemma FlagAfterCall(m: Machine, call: Call)
    requires Invariant(m) && SendStream.Step(m, call).Ok?
    ensures var m' := SendStream.Step(m, call).value;
            if TakesOut(m.stream, call) then !m'.pacesAudio && !m'.stream.registered
            else (m.pacesAudio ==> m'.pacesAudio) && (m'.stream.registered ==> m'.pacesAudio || m.stream.registered)
  {
    match call
    case Start(_) =>
    case Stop =>
    case SetTransportOverhead(_, _) =>
    case DeliverRtcp(_) =>
    case Adapt(_) =>
    case Encode =>
    case Reconfigure(config, rtp, dev) =>
      var m1, m3 := Stages(m, config, rtp, dev);
      FlagAfterObserverStage(m3, config);
  }

  lemma CallKeepsPacedExactlyWhen(w: World, id: StreamId, call: Call)
    requires Consistent(w) && Paced(w) && id in w.sends && SendStream.Step(MachineOf(w, id), call).Ok?
    ensures Paced(WithMachine(w, SendStream.Step(MachineOf(w, id), call).value)) <==>
            PacingFollows(w, SendCall(id, call))
  {
    var m' := SendStream.Step(MachineOf(w, id), call).value;
    FlagAfterCall(MachineOf(w, id), call);
    StepKeepsInvariant(MachineOf(w, id), call);
    OnlyOneStreamDiffers(w, m');
  }

  lemma OnlyOneStreamDiffers(w: World, m': Machine)
    ensures Paced(WithMachine(w, m')) <==>
            && (m'.stream.registered ==> m'.pacesAudio)
            && (forall i :: i in w.sends && i != m'.id && w.sends[i].registered ==> m'.pacesAudio)
  {
    var w' := WithMachine(w, m');
    assert forall i :: i in w.sends && i != m'.id ==> i in w'.sends && w'.sends[i] == w.sends[i];
    assert m'.id in w'.sends && w'.sends[m'.id] == m'.stream;
  }

  lemma CreationKeepsPaced(w: World, op: Op)
    requires op.CreateSend?
    requires Consistent(w) && Paced(w) && AudioWorld.Step(w, op).Ok?
    ensures Paced(AudioWorld.Step(w, op).value)
  {
    var m := NewMachine(w, op.id, op.settings);
    var call := Reconfigure(op.config, op.rtpOverhead, op.dev);
    NewMachineInvariant(w, op.id, op.settings);
    FlagAfterCall(m, call);
    ConfigureKeepsInvariant(m, op.config, op.rtpOverhead, op.dev);
    OnlyOneStreamDiffers(w, SendStream.Step(m, call).value);
  }

  lemma StepKeepsPacedExactlyWhen(w: World, op: Op)
    requires Consistent(w) && Paced(w) && AudioWorld.Step(w, op).Ok?
    ensures Paced(AudioWorld.Step(w, op).value) <==> PacingFollows(w, op)
  {
    match op
    case SendCall(id, call) => CallKeepsPacedExactlyWhen(w, id, call);
    case CreateSend(_, _, _, _, _) => CreationKeepsPaced(w, op);
    case _ => OtherOpsKeepStreams(w, op);
  }

  // ---------------------------------------------------------------- over runs

  ghost predicate AlwaysPaced(w: World, ops: seq<Op>)
    decreases ops
  {
    && Paced(w)
    && (ops != [] && AudioWorld.Step(w, ops[0]).Ok? ==> AlwaysPaced(AudioWorld.Step(w, ops[0]).value, ops[1..]))
  }

  ghost predicate AlwaysPacingFollows(w: World, ops: seq<Op>)
    decreases ops
  {
    ops != [] && AudioWorld.Step(w, ops[0]).Ok? ==>
      PacingFollows(w, ops[0]) && AlwaysPacingFollows(AudioWorld.Step(w, ops[0]).value, ops[1..])
  }

  /** In every state of a run a registered stream's packets are accounted for, exactly if no call of the run takes a
      stream out of allocation while another one is registered. */
  lemma {:induction false} PacedExactlyWhen(w: World, ops: seq<Op>)
    requires Consistent(w) && Paced(w)
    ensures AlwaysPaced(w, ops) <==> AlwaysPacingFollows(w, ops)
    decreases ops
  {
    if ops == [] || AudioWorld.Step(w, ops[0]).CheckFailed? {
    } else {
      var w' := AudioWorld.Step(w, ops[0]).value;
      StepKeepsPacedExactlyWhen(w, ops[0]);
      StepKeepsConsistent(w, ops[0]);
      if Paced(w') {
        PacedExactlyWhen(w', ops[1..]);
      }
    }
  }

  lemma PacingOfEveryRun(ops: seq<Op>)
    ensures AlwaysPaced(EMPTY, ops) <==> AlwaysPacingFollows(EMPTY, ops)
  {
    Shared.InitialIsSafe();
    PacedExactlyWhen(EMPTY, ops);
  }

  // ---------------------------------------------------------------- a run that fails

  const OTHER := DEFAULT_CONFIG.(bitratePriority := 2.0)

  /** Stream 7 takes part in allocation. */
  const ALLOCATING := [CreateSend(7, TRIALS, ALLOCATED, 40, DEV), SendCall(7, Start(DEV))]

  /** Stream 8 never does, and is told a new priority. */
  const REPRIORITIZING := [
    CreateSend(8, TRIALS, DEFAULT_CONFIG, 0, DEV), SendCall(8, Start(DEV)), SendCall(8, Reconfigure(OTHER, 0, DEV))]

  lemma RunOfCons(w: World, op: Op, ops: seq<Op>)
    requires AudioWorld.Step(w, op).Ok?
    ensures Run(w, [op] + ops) == Run(AudioWorld.Step(w, op).value, ops)
  {
    assert ([op] + ops)[1..] == ops;
  }

  lemma AllocatingIsReached()
    ensures Run(EMPTY, ALLOCATING) == Ok(WithMachine(EMPTY, Sending(ALLOCATED)))
  {
    SendingIsReached();
    var created := ConfigureStream(NewMachine(EMPTY, 7, TRIALS), ALLOCATED, 40, DEV).value;
    var w := WithMachine(EMPTY, created);
    assert MachineOf(w, 7) == created;
    assert WithMachine(w, Sending(ALLOCATED)) == WithMachine(EMPTY, Sending(ALLOCATED));
    RunOfCons(EMPTY, ALLOCATING[0], ALLOCATING[1..]);
    assert ALLOCATING == [ALLOCATING[0]] + ALLOCATING[1..];
    RunOfCons(w, ALLOCATING[1], []);
    assert ALLOCATING[1..] == [ALLOCATING[1]] + [];
  }

  /** Created and started, the other stream is as it was built but for its flag. */
  lemma OtherStreamStarts(w: World)
    requires 8 !in w.sends && 7 in w.sends
    ensures var w1 := AudioWorld.Step(w, REPRIORITIZING[0]);
            && w1.Ok?
            && var w2 := AudioWorld.Step(w1.value, REPRIORITIZING[1]);
               && w2.Ok? && 8 in w2.value.sends && w2.value.sends[8] == NewStream(TRIALS).(sending := true)
               && 7 in w2.value.sends && w2.value.sends[7] == w.sends[7]
  {
    var w1 := AudioWorld.Step(w, REPRIORITIZING[0]);
    assert w1.Ok? && w1.value.sends[8] == NewStream(TRIALS);
  }

  lemma NewPriorityClearsTheFlag(w: World)
    requires 8 in w.sends && w.sends[8] == NewStream(TRIALS).(sending := true) && 7 in w.sends
    ensures var r := AudioWorld.Step(w, REPRIORITIZING[2]);
            r.Ok? && 7 in r.value.sends && r.value.sends[7] == w.sends[7] && !r.value.pacesAudio
  {
  }

  /** A new priority for a stream that never was registered takes the flag from the one that is. */
  lemma AnotherStreamClearsTheFlag()
    ensures var r := Run(EMPTY, ALLOCATING + REPRIORITIZING);
            r.Ok? && 7 in r.value.sends && r.value.sends[7].registered && !r.value.pacesAudio
  {
    AllocatingIsReached();
    RunOfConcat(EMPTY, ALLOCATING, REPRIORITIZING);
    var w := WithMachine(EMPTY, Sending(ALLOCATED));
    assert w.sends[7].registered;
    var ops := REPRIORITIZING;
    OtherStreamStarts(w);
    var w1 := AudioWorld.Step(w, ops[0]).value;
    var w2 := AudioWorld.Step(w1, ops[1]).value;
    NewPriorityClearsTheFlag(w2);
    RunOfCons(w2, ops[2], []);
    RunOfCons(w1, ops[1], [ops[2]] + []);
    RunOfCons(w, ops[0], [ops[1]] + ([ops[2]] + []));
    assert ops == [ops[0]] + ([ops[1]] + ([ops[2]] + []));
  }

  lemma {:induction false} RunOfConcat(w: World, a: seq<Op>, b: seq<Op>)
    requires Run(w, a).Ok?
    ensures Run(w, a + b) == Run(Run(w, a).value, b)
    decreases a
  {
    if a == [] {
      assert a + b == b;
    } else {
      assert (a + b)[1..] == a[1..] + b;
      RunOfConcat(AudioWorld.Step(w, a[0]).value, a[1..], b);
    }
  }
}
