/** What the operations on the shared audio state and on the streams of a call bring about, and what of it can be told
    after any run. */
module AudioEffects {
  import opened Basics
  import opened SendStream
  import opened SendStreamInvariants
  import opened SendStreamCaches
  import opened AudioWorld
  import opened Shared = AudioState
  import Runs = AudioRuns

  // ---------------------------------------------------------------- one operation on the audio state

  /** Turning playout off stops the device and leaves receivers to the poller; turning it on stops the poller, leaves a
      playing device alone, and starts an idle one if there is someone to play. */
  lemma SetPlayoutEffect(a: Audio, enabled: bool, dev: DeviceAnswer)
    ensures var a' := Shared.SetPlayout(a, enabled, dev);
            && a'.playoutEnabled == enabled
            && a' == a.(playoutEnabled := enabled, devicePlaying := a'.devicePlaying, pollerRunning := a'.pollerRunning)
            && (!enabled ==> !a'.devicePlaying && (a'.pollerRunning <==> exists i :: i in a.receiving))
            && (enabled ==> !a'.pollerRunning)
            && (enabled && a.devicePlaying ==> a'.devicePlaying)
            && (enabled && !a.devicePlaying ==>
                  (a'.devicePlaying <==> (exists i :: i in a.receiving) && dev.initOk && dev.startOk))
  {
  }

  /** Turning recording off stops the device; turning it on leaves a recording device alone, and starts an idle one if
      there is someone to send. */
  lemma SetRecordingEffect(a: Audio, enabled: bool, dev: DeviceAnswer)
    ensures var a' := Shared.SetRecording(a, enabled, dev);
            && a'.recordingEnabled == enabled
            && a' == a.(recordingEnabled := enabled, deviceRecording := a'.deviceRecording)
            && (!enabled ==> !a'.deviceRecording)
            && (enabled && a.deviceRecording ==> a'.deviceRecording)
            && (enabled && !a.deviceRecording ==>
                  (a'.deviceRecording <==> (exists i :: i in a.sending) && dev.initOk && dev.startOk))
  {
    assert a.sending == map[] <==> forall i :: i !in a.sending;
  }

  /** A receiver is added once, to the mixer too, and starts an idle device that is enabled and answers. */
  lemma AddReceiverEffect(a: Audio, id: StreamId, dev: DeviceAnswer)
    ensures AddReceivingStream(a, id, dev).Ok? <==> id !in a.receiving
    ensures id !in a.receiving ==>
              var a' := AddReceivingStream(a, id, dev).value;
              && (forall i :: i in a'.receiving <==> i in a.receiving || i == id)
              && (forall i :: i in a'.mixerSources <==> i in a.mixerSources || i == id)
              && (a.devicePlaying ==> a'.devicePlaying)
              && (!a.devicePlaying ==> (a'.devicePlaying <==> a.playoutEnabled && dev.initOk && dev.startOk))
              && (a'.pollerRunning <==> !a.playoutEnabled)
              && a' == a.(receiving := a'.receiving, mixerSources := a'.mixerSources,
                          devicePlaying := a'.devicePlaying, pollerRunning := a'.pollerRunning)
  {
    assert a.receiving + {id} != {} by { assert id in a.receiving + {id}; }
  }

  /** A receiver is removed from the mixer too; with the last one the device and the poller stop. */
  lemma RemoveReceiverEffect(a: Audio, id: StreamId)
    ensures RemoveReceivingStream(a, id).Ok? <==> id in a.receiving
    ensures id in a.receiving ==>
              var a' := RemoveReceivingStream(a, id).value;
              var others := exists i :: i in a.receiving && i != id;
              && (forall i :: i in a'.receiving <==> i in a.receiving && i != id)
              && (forall i :: i in a'.mixerSources <==> i in a.mixerSources && i != id)
              && (a'.devicePlaying <==> a.devicePlaying && others)
              && (a'.pollerRunning <==> others && !a.playoutEnabled)
              && a' == a.(receiving := a'.receiving, mixerSources := a'.mixerSources,
                          devicePlaying := a'.devicePlaying, pollerRunning := a'.pollerRunning)
  {
    var left := a.receiving - {id};
    assert forall i :: i in left <==> i in a.receiving && i != id;
    assert left == {} <==> forall i :: i !in left;
  }

  /** A sender is added or told anew, and starts an idle device that is enabled and answers. */
  lemma AddSenderEffect(a: Audio, id: StreamId, props: StreamProperties, dev: DeviceAnswer)
    ensures var a' := AddSendingStream(a, id, props, dev);
            && id in a'.sending && a'.sending[id] == props
            && (forall i :: i != id ==> (i in a'.sending <==> i in a.sending))
            && (forall i :: i != id && i in a.sending ==> a'.sending[i] == a.sending[i])
            && Describes(a'.transport, a'.sending)
            && (a.deviceRecording ==> a'.deviceRecording)
            && (!a.deviceRecording ==> (a'.deviceRecording <==> a.recordingEnabled && dev.initOk && dev.startOk))
            && a' == a.(sending := a'.sending, transport := a'.transport, deviceRecording := a'.deviceRecording)
  {
    SummaryDescribes(a.sending[id := props]);
  }

  /** A sender is removed; with the last one recording stops. */
  lemma RemoveSenderEffect(a: Audio, id: StreamId)
    ensures RemoveSendingStream(a, id).Ok? <==> id in a.sending
    ensures id in a.sending ==>
              var a' := RemoveSendingStream(a, id).value;
              var others := exists i :: i in a.sending && i != id;
              && (forall i :: i in a'.sending <==> i in a.sending && i != id)
              && (forall i :: i in a'.sending ==> a'.sending[i] == a.sending[i])
              && Describes(a'.transport, a'.sending)
              && (a'.deviceRecording <==> a.deviceRecording && others)
              && a' == a.(sending := a'.sending, transport := a'.transport, deviceRecording := a'.deviceRecording)
  {
    var left := a.sending - {id};
    assert left == map[] <==> forall i :: i in a.sending ==> i == id by {
      assert forall i :: i in left <==> i in a.sending && i != id;
    }
    SummaryDescribes(left);
  }

  // ---------------------------------------------------------------- one operation on a stream

  /** The receive streams after an operation: it concerns the one it names. */
  lemma ReceiveStreamsAfter(w: World, op: Op)
    requires AudioWorld.Step(w, op).Ok?
    ensures var w' := AudioWorld.Step(w, op).value;
            (op.CreateReceive? ==> op.id in w'.receives) &&
            forall i :: i in w'.receives || i in w.receives ==>
              match op
              case CreateReceive(id) =>
                i in w'.receives && w'.receives[i] == (i != id && w.receives[i])
              case DestroyReceive(id) =>
                (i in w'.receives <==> i != id) && (i != id ==> i in w.receives && w'.receives[i] == w.receives[i])
              case StartReceive(id, _) =>
                i in w.receives && i in w'.receives && w'.receives[i] == (i == id || w.receives[i])
              case StopReceive(id) =>
                i in w.receives && i in w'.receives && w'.receives[i] == (i != id && w.receives[i])
              case _ => i in w.receives && i in w'.receives && w'.receives[i] == w.receives[i]
  {
  }

  /** The send streams after an operation, in the same way. */
  lemma SendStreamsAfter(w: World, op: Op)
    requires Consistent(w) && AudioWorld.Step(w, op).Ok?
    ensures var w' := AudioWorld.Step(w, op).value;
            (op.CreateSend? ==> op.id in w'.sends) &&
            forall i :: i in w'.sends || i in w.sends ==>
              match op
              case CreateSend(id, settings, config, rtp, dev) =>
                && i in w'.sends
                && (if i == id
                    then Ok(w'.sends[i]) == StreamOf(ConfigureStream(NewMachine(w, id, settings), config, rtp, dev))
                    else i in w.sends && w'.sends[i] == w.sends[i])
              case DestroySend(id) =>
                (i in w'.sends <==> i != id) && (i != id ==> i in w.sends && w'.sends[i] == w.sends[i])
              case SendCall(id, call) =>
                && i in w.sends && i in w'.sends
                && (if i == id then Ok(w'.sends[i]) == StreamOf(SendStream.Step(MachineOf(w, id), call))
                    else w'.sends[i] == w.sends[i])
              case _ => i in w.sends && i in w'.sends && w'.sends[i] == w.sends[i]
  {
    match op
    case CreateSend(id, settings, config, rtp, dev) =>
      NewMachineInvariant(w, id, settings);
      ConfigureKeepsInvariant(NewMachine(w, id, settings), config, rtp, dev);
    case SendCall(id, call) => StepKeepsInvariant(MachineOf(w, id), call);
    case _ =>
  }

  function StreamOf(m: Outcome<Machine>): Outcome<Stream> {
    if m.Ok? then Ok(m.value.stream) else CheckFailed
  }

  // ---------------------------------------------------------------- after any run

  /** The argument of the last call that sets a flag, or the flag as it was. */
  function LastPlayout(enabled: bool, ops: seq<Op>): bool {
    if ops == [] then enabled
    else
      var last := ops[|ops| - 1];
      if last.SetPlayout? then last.enabled else LastPlayout(enabled, ops[..|ops| - 1])
  }

  function LastRecording(enabled: bool, ops: seq<Op>): bool {
    if ops == [] then enabled
    else
      var last := ops[|ops| - 1];
      if last.SetRecording? then last.enabled else LastRecording(enabled, ops[..|ops| - 1])
  }

  lemma FlagsAfter(w: World, op: Op)
    requires Consistent(w) && AudioWorld.Step(w, op).Ok?
    ensures var a, a' := w.audio, AudioWorld.Step(w, op).value.audio;
            && a'.playoutEnabled == (if op.SetPlayout? then op.enabled else a.playoutEnabled)
            && a'.recordingEnabled == (if op.SetRecording? then op.enabled else a.recordingEnabled)
  {
    match op
    case CreateSend(id, settings, config, rtp, dev) =>
      NewMachineInvariant(w, id, settings);
      ConfigureKeepsInvariant(NewMachine(w, id, settings), config, rtp, dev);
    case SendCall(id, call) => StepKeepsInvariant(MachineOf(w, id), call);
    case _ =>
  }

  lemma {:induction false} LastFlagsOfCons(playout: bool, recording: bool, op: Op, ops: seq<Op>)
    ensures LastPlayout(playout, [op] + ops) == LastPlayout(if op.SetPlayout? then op.enabled else playout, ops)
    ensures LastRecording(recording, [op] + ops) ==
            LastRecording(if op.SetRecording? then op.enabled else recording, ops)
  {
    if ops == [] {
      assert [op] + ops == [op] && [op][..0] == [];
    } else {
      var front := ops[..|ops| - 1];
      LastFlagsOfCons(playout, recording, op, front);
      assert ([op] + ops)[..|ops|] == [op] + front;
    }
  }

  lemma {:induction false} FlagsOfRun(w: World, ops: seq<Op>)
    requires Consistent(w) && Run(w, ops).Ok?
    ensures var a := Run(w, ops).value.audio;
            && a.playoutEnabled == LastPlayout(w.audio.playoutEnabled, ops)
            && a.recordingEnabled == LastRecording(w.audio.recordingEnabled, ops)
    decreases ops
  {
    if ops == [] {
    } else {
      FlagsAfter(w, ops[0]);
      StepKeepsConsistent(w, ops[0]);
      FlagsOfRun(AudioWorld.Step(w, ops[0]).value, ops[1..]);
      LastFlagsOfCons(w.audio.playoutEnabled, w.audio.recordingEnabled, ops[0], ops[1..]);
      assert ops == [ops[0]] + ops[1..];
    }
  }

  /** After any run playout and recording are on exactly if the last call about them said so, or there was none. */
  lemma FlagsOfEveryRun(ops: seq<Op>)
    requires Run(EMPTY, ops).Ok?
    ensures var a := Run(EMPTY, ops).value.audio;
            a.playoutEnabled == LastPlayout(true, ops) && a.recordingEnabled == LastRecording(true, ops)
  {
    InitialIsSafe();
    FlagsOfRun(EMPTY, ops);
  }

  /** Whether a receive stream plays: the last call that names it decides. */
  function LastReceive(playing: bool, ops: seq<Op>, id: StreamId): bool {
    if ops == [] then playing
    else
      var last := ops[|ops| - 1];
      if last.StartReceive? && last.id == id then true
      else if (last.StopReceive? || last.CreateReceive? || last.DestroyReceive?) && last.id == id then false
      else LastReceive(playing, ops[..|ops| - 1], id)
  }

  predicate Plays(w: World, id: StreamId) {
    id in w.receives && w.receives[id]
  }

  lemma {:induction false} LastReceiveOfCons(playing: bool, op: Op, ops: seq<Op>, id: StreamId)
    ensures LastReceive(playing, [op] + ops, id) == LastReceive(LastReceive(playing, [op], id), ops, id)
  {
    if ops == [] {
      assert [op] + ops == [op];
    } else {
      var front := ops[..|ops| - 1];
      LastReceiveOfCons(playing, op, front, id);
      assert ([op] + ops)[..|ops|] == [op] + front;
    }
  }

  lemma PlaysAfter(w: World, op: Op, id: StreamId)
    requires AudioWorld.Step(w, op).Ok?
    ensures Plays(AudioWorld.Step(w, op).value, id) == LastReceive(Plays(w, id), [op], id)
  {
    ReceiveStreamsAfter(w, op);
    assert [op][..0] == [];
  }

  lemma {:induction false} PlaysAfterRun(w: World, ops: seq<Op>, id: StreamId)
    requires Consistent(w) && Run(w, ops).Ok?
    ensures Plays(Run(w, ops).value, id) == LastReceive(Plays(w, id), ops, id)
    decreases ops
  {
    if ops == [] {
    } else {
      PlaysAfter(w, ops[0], id);
      StepKeepsConsistent(w, ops[0]);
      PlaysAfterRun(AudioWorld.Step(w, ops[0]).value, ops[1..], id);
      LastReceiveOfCons(Plays(w, id), ops[0], ops[1..], id);
      assert ops == [ops[0]] + ops[1..];
    }
  }

  /** After any run exactly the receive streams started and not since stopped or destroyed feed the mixer. */
  lemma ReceiversOfEveryRun(ops: seq<Op>, id: StreamId)
    requires Run(EMPTY, ops).Ok?
    ensures var a := Run(EMPTY, ops).value.audio;
            && (id in a.receiving <==> LastReceive(false, ops, id))
            && (id in a.mixerSources <==> LastReceive(false, ops, id))
  {
    InitialIsSafe();
    PlaysAfterRun(EMPTY, ops, id);
    Runs.RunKeepsConsistent(EMPTY, ops);
  }

  /** Whether a send stream sends: the last Start or Stop that names it decides, unless it was created or destroyed
      since. */
  function LastSend(sending: bool, ops: seq<Op>, id: StreamId): bool {
    if ops == [] then sending
    else
      var last := ops[|ops| - 1];
      if last.SendCall? && last.id == id && last.call.Start? then true
      else if last.SendCall? && last.id == id && last.call.Stop? then false
      else if (last.CreateSend? || last.DestroySend?) && last.id == id then false
      else LastSend(sending, ops[..|ops| - 1], id)
  }

  predicate Sends(w: World, id: StreamId) {
    id in w.sends && w.sends[id].sending
  }

  lemma {:induction false} LastSendOfCons(sending: bool, op: Op, ops: seq<Op>, id: StreamId)
    ensures LastSend(sending, [op] + ops, id) == LastSend(LastSend(sending, [op], id), ops, id)
  {
    if ops == [] {
      assert [op] + ops == [op];
    } else {
      var front := ops[..|ops| - 1];
      LastSendOfCons(sending, op, front, id);
      assert ([op] + ops)[..|ops|] == [op] + front;
    }
  }

  /** Of the calls on a stream only Start and Stop decide whether it sends. */
  lemma SendingAfterCall(m: Machine, call: Call)
    requires Invariant(m) && SendStream.Step(m, call).Ok?
    ensures SendStream.Step(m, call).value.stream.sending ==
            (call.Start? || (!call.Stop? && m.stream.sending))
  {
    match call
    case Reconfigure(config, rtp, dev) => SendingAfterConfigure(m, config, rtp, dev);
    case _ =>
  }

  lemma SendingAfterConfigure(m: Machine, config: Config, rtp: nat, dev: DeviceAnswer)
    requires Invariant(m) && ConfigureStream(m, config, rtp, dev).Ok?
    ensures ConfigureStream(m, config, rtp, dev).value.stream.sending == m.stream.sending
  {
    var m1, m3 := Stages(m, config, rtp, dev);
    ObserverStageFrame(m3, config);
  }

  lemma SendsAfter(w: World, op: Op, id: StreamId)
    requires Consistent(w) && AudioWorld.Step(w, op).Ok?
    ensures Sends(AudioWorld.Step(w, op).value, id) == LastSend(Sends(w, id), [op], id)
  {
    assert [op][..0] == [];
    SendStreamsAfter(w, op);
    match op
    case CreateSend(i, settings, config, rtp, dev) =>
      NewMachineInvariant(w, i, settings);
      SendingAfterConfigure(NewMachine(w, i, settings), config, rtp, dev);
    case SendCall(i, call) => SendingAfterCall(MachineOf(w, i), call);
    case _ =>
  }

  lemma {:induction false} SendsAfterRun(w: World, ops: seq<Op>, id: StreamId)
    requires Consistent(w) && Run(w, ops).Ok?
    ensures Sends(Run(w, ops).value, id) == LastSend(Sends(w, id), ops, id)
    decreases ops
  {
    if ops == [] {
    } else {
      SendsAfter(w, ops[0], id);
      StepKeepsConsistent(w, ops[0]);
      SendsAfterRun(AudioWorld.Step(w, ops[0]).value, ops[1..], id);
      LastSendOfCons(Sends(w, id), ops[0], ops[1..], id);
      assert ops == [ops[0]] + ops[1..];
    }
  }

  /** After any run exactly the send streams started and not since stopped get captured audio. */
  lemma SendersOfEveryRun(ops: seq<Op>, id: StreamId)
    requires Run(EMPTY, ops).Ok?
    ensures id in Run(EMPTY, ops).value.audio.sending <==> LastSend(false, ops, id)
  {
    InitialIsSafe();
    SendsAfterRun(EMPTY, ops, id);
    Runs.RunKeepsConsistent(EMPTY, ops);
    var w := Run(EMPTY, ops).value;
    if id in w.sends {
      assert Invariant(MachineOf(w, id));
    }
  }
}
