/** Any number of send and receive streams over one audio state and one bitrate allocator: what holds after every
    interleaving of their calls. */
module AudioWorld {
  import opened Basics
  import opened SendStream
  import opened SendStreamInvariants
  import opened SendStreamCaches
  import Shared = AudioState

  /** receives maps every receive stream to its playing_ flag. */
  datatype World = World(
    audio: Shared.Audio,
    allocator: map<StreamId, AllocationConfig>,
    pacesAudio: bool,
    sends: map<StreamId, Stream>,
    receives: map<StreamId, bool>)

  const EMPTY := World(Shared.INITIAL, map[], false, map[], map[])

  datatype Op =
    | CreateSend(id: StreamId, settings: Settings, config: Config, rtpOverhead: nat, dev: Shared.DeviceAnswer)
    | DestroySend(id: StreamId)
    | SendCall(id: StreamId, call: Call)
    | CreateReceive(id: StreamId)
    | DestroyReceive(id: StreamId)
    | StartReceive(id: StreamId, dev: Shared.DeviceAnswer)
    | StopReceive(id: StreamId)
    | SetPlayout(enabled: bool, dev: Shared.DeviceAnswer)
    | SetRecording(enabled: bool, dev: Shared.DeviceAnswer)

  function MachineOf(w: World, id: StreamId): Machine
    requires id in w.sends
  {
    Machine(id, w.sends[id], w.audio, w.allocator, w.pacesAudio)
  }

  function WithMachine(w: World, m: Machine): World {
    w.(audio := m.audio, allocator := m.allocator, pacesAudio := m.pacesAudio, sends := w.sends[m.id := m.stream])
  }

  function NewMachine(w: World, id: StreamId, settings: Settings): Machine {
    Machine(id, NewStream(settings), w.audio, w.allocator, w.pacesAudio)
  }

  function StartReceiving(w: World, id: StreamId, dev: Shared.DeviceAnswer): Outcome<World> {
    if id !in w.receives then CheckFailed
    else if w.receives[id] then Ok(w)
    else
      var audio :- Shared.AddReceivingStream(w.audio, id, dev);
      Ok(w.(audio := audio, receives := w.receives[id := true]))
  }

  function StopReceiving(w: World, id: StreamId): Outcome<World> {
    if id !in w.receives then CheckFailed
    else if !w.receives[id] then Ok(w)
    else
      var audio :- Shared.RemoveReceivingStream(w.audio, id);
      Ok(w.(audio := audio, receives := w.receives[id := false]))
  }

  /** A call on an object that does not exist, or the creation of one that does, belongs to no run. */
  function Step(w: World, op: Op): Outcome<World> {
    match op
    case CreateSend(id, settings, config, rtp, dev) =>
      if id in w.sends then CheckFailed
      else
        var m :- ConfigureStream(NewMachine(w, id, settings), config, rtp, dev);
        Ok(WithMachine(w, m))
    case DestroySend(id) =>
      if id !in w.sends || w.sends[id].sending then CheckFailed else Ok(w.(sends := w.sends - {id}))
    case SendCall(id, call) =>
      if id !in w.sends then CheckFailed
      else
        var m :- SendStream.Step(MachineOf(w, id), call);
        Ok(WithMachine(w, m))
    case CreateReceive(id) =>
      if id in w.receives then CheckFailed else Ok(w.(receives := w.receives[id := false]))
    case DestroyReceive(id) =>
      var stopped :- StopReceiving(w, id);
      Ok(stopped.(receives := stopped.receives - {id}))
    case StartReceive(id, dev) => StartReceiving(w, id, dev)
    case StopReceive(id) => StopReceiving(w, id)
    case SetPlayout(enabled, dev) => Ok(w.(audio := Shared.SetPlayout(w.audio, enabled, dev)))
    case SetRecording(enabled, dev) => Ok(w.(audio := Shared.SetRecording(w.audio, enabled, dev)))
  }

  function Run(w: World, ops: seq<Op>): Outcome<World>
    decreases ops
  {
    if ops == [] then Ok(w)
    else
      var w' :- Step(w, ops[0]);
      Run(w', ops[1..])
  }

  // ---------------------------------------------------------------- the invariant of every run

  ghost predicate Consistent(w: World) {
    && Shared.Safe(w.audio)
    && (forall i :: i in w.sends ==> Invariant(MachineOf(w, i)))
    && w.allocator.Keys <= w.sends.Keys
    && w.audio.sending.Keys <= w.sends.Keys
    && (forall i :: i in w.audio.receiving <==> i in w.receives && w.receives[i])
  }

  /** Writing back the stream that made the call leaves every other one as consistent as it was. */
  lemma WriteBackKeepsConsistent(w: World, m: Machine, m': Machine)
    requires Consistent(w)
    requires m == Machine(m.id, m.stream, w.audio, w.allocator, w.pacesAudio)
    requires Invariant(m') && Shared.Safe(m'.audio) && OthersUntouched(m, m')
    ensures Consistent(WithMachine(w, m'))
  {
    var w' := WithMachine(w, m');
    forall i | i in w'.sends
      ensures Invariant(MachineOf(w', i))
    {
      if i == m.id {
        assert MachineOf(w', i) == m';
      } else {
        assert Invariant(MachineOf(w, i));
        OtherMachineUntouched(m, m', i);
      }
    }
    forall i | i in m'.allocator || i in m'.audio.sending
      ensures i in w'.sends
    {
      OtherMachineUntouched(m, m', i);
    }
  }

  lemma OtherMachineUntouched(m: Machine, m': Machine, i: StreamId)
    requires OthersUntouched(m, m')
    ensures i != m.id ==>
              && (i in m'.allocator <==> i in m.allocator)
              && (i in m.allocator ==> m'.allocator[i] == m.allocator[i])
              && (i in m'.audio.sending <==> i in m.audio.sending)
              && (i in m.audio.sending ==> m'.audio.sending[i] == m.audio.sending[i])
  {
    assert i != m.id ==> (i in m.allocator <==> i in m.allocator - {m.id});
    assert i != m.id ==> (i in m.audio.sending <==> i in m.audio.sending - {m.id});
  }

  lemma NewMachineInvariant(w: World, id: StreamId, settings: Settings)
    requires Consistent(w) && id !in w.sends
    ensures Invariant(NewMachine(w, id, settings))
  {
  }

  /** Whether the device starts if an operation asks it to. */
  predicate DeviceWilling(op: Op) {
    match op
    case CreateSend(_, _, _, _, dev) => dev.Starts()
    case SendCall(_, call) => DeviceStarts(call)
    case StartReceive(_, dev) => dev.Starts()
    case SetPlayout(_, dev) => dev.Starts()
    case SetRecording(_, dev) => dev.Starts()
    case _ => true
  }

  lemma StepKeepsConsistent(w: World, op: Op)
    requires Consistent(w) && Step(w, op).Ok?
    ensures var w' := Step(w, op).value;
            Consistent(w') && (Shared.Running(w.audio) && DeviceWilling(op) ==> Shared.Running(w'.audio))
  {
    match op
    case CreateSend(id, settings, config, rtp, dev) => CreateSendKeepsConsistent(w, id, settings, config, rtp, dev);
    case SendCall(id, call) => SendCallKeepsConsistent(w, id, call);
    case DestroySend(id) => DestroySendKeepsConsistent(w, id);
    case _ => ReceiveOpKeepsConsistent(w, op);
  }

  /** Operations that do not concern send streams. */
  lemma ReceiveOpKeepsConsistent(w: World, op: Op)
    requires !op.CreateSend? && !op.SendCall? && !op.DestroySend?
    requires Consistent(w) && Step(w, op).Ok?
    ensures var w' := Step(w, op).value;
            Consistent(w') && (Shared.Running(w.audio) && DeviceWilling(op) ==> Shared.Running(w'.audio))
  {
    match op
    case CreateReceive(id) => CreateReceiveKeepsConsistent(w, id);
    case DestroyReceive(id) => DestroyReceiveKeepsConsistent(w, id);
    case StartReceive(id, dev) => StartReceivingKeepsConsistent(w, id, dev);
    case StopReceive(id) => StopReceivingKeepsConsistent(w, id);
    case SetPlayout(enabled, dev) => SetPlayoutKeepsConsistent(w, enabled, dev);
    case SetRecording(enabled, dev) => SetRecordingKeepsConsistent(w, enabled, dev);
  }

  lemma CreateReceiveKeepsConsistent(w: World, id: StreamId)
    requires Consistent(w) && id !in w.receives
    ensures Consistent(w.(receives := w.receives[id := false]))
  {
    SendsUntouched(w, w.(receives := w.receives[id := false]));
  }

  lemma DestroyReceiveKeepsConsistent(w: World, id: StreamId)
    requires Consistent(w) && StopReceiving(w, id).Ok?
    ensures var stopped := StopReceiving(w, id).value;
            var w' := stopped.(receives := stopped.receives - {id});
            Consistent(w') && (Shared.Running(w.audio) ==> Shared.Running(w'.audio))
  {
    StopReceivingKeepsConsistent(w, id);
    var stopped := StopReceiving(w, id).value;
    SendsUntouched(stopped, stopped.(receives := stopped.receives - {id}));
  }

  lemma SetPlayoutKeepsConsistent(w: World, enabled: bool, dev: Shared.DeviceAnswer)
    requires Consistent(w)
    ensures var w' := w.(audio := Shared.SetPlayout(w.audio, enabled, dev));
            Consistent(w') && (Shared.Running(w.audio) && dev.Starts() ==> Shared.Running(w'.audio))
  {
    Shared.OtherStepsKeepSafe(w.audio, 0, enabled, dev);
    SendsUntouched(w, w.(audio := Shared.SetPlayout(w.audio, enabled, dev)));
  }

  lemma SetRecordingKeepsConsistent(w: World, enabled: bool, dev: Shared.DeviceAnswer)
    requires Consistent(w)
    ensures var w' := w.(audio := Shared.SetRecording(w.audio, enabled, dev));
            Consistent(w') && (Shared.Running(w.audio) && dev.Starts() ==> Shared.Running(w'.audio))
  {
    Shared.OtherStepsKeepSafe(w.audio, 0, enabled, dev);
    SendsUntouched(w, w.(audio := Shared.SetRecording(w.audio, enabled, dev)));
  }

  lemma CreateSendKeepsConsistent(w: World, id: StreamId, settings: Settings, config: Config, rtp: nat,
                                  dev: Shared.DeviceAnswer)
    requires Consistent(w) && id !in w.sends && ConfigureStream(NewMachine(w, id, settings), config, rtp, dev).Ok?
    ensures var w' := WithMachine(w, ConfigureStream(NewMachine(w, id, settings), config, rtp, dev).value);
            Consistent(w') && (Shared.Running(w.audio) && dev.Starts() ==> Shared.Running(w'.audio))
  {
    var m := NewMachine(w, id, settings);
    NewMachineInvariant(w, id, settings);
    ConfigureKeepsInvariant(m, config, rtp, dev);
    ReconfigureKeepsAudioSafe(m, config, rtp, dev);
    WriteBackKeepsConsistent(w, m, ConfigureStream(m, config, rtp, dev).value);
  }

  lemma SendCallKeepsConsistent(w: World, id: StreamId, call: Call)
    requires Consistent(w) && id in w.sends && SendStream.Step(MachineOf(w, id), call).Ok?
    ensures var w' := WithMachine(w, SendStream.Step(MachineOf(w, id), call).value);
            Consistent(w') && (Shared.Running(w.audio) && DeviceStarts(call) ==> Shared.Running(w'.audio))
  {
    var m := MachineOf(w, id);
    StepKeepsInvariant(m, call);
    StepKeepsAudioSafe(m, call);
    WriteBackKeepsConsistent(w, m, SendStream.Step(m, call).value);
  }

  lemma DestroySendKeepsConsistent(w: World, id: StreamId)
    requires Consistent(w) && id in w.sends && !w.sends[id].sending
    ensures Consistent(w.(sends := w.sends - {id}))
  {
    var w' := w.(sends := w.sends - {id});
    assert Invariant(MachineOf(w, id));
    forall i | i in w'.sends
      ensures Invariant(MachineOf(w', i))
    {
      assert MachineOf(w', i) == MachineOf(w, i);
    }
  }

  lemma StartReceivingKeepsConsistent(w: World, id: StreamId, dev: Shared.DeviceAnswer)
    requires Consistent(w) && StartReceiving(w, id, dev).Ok?
    ensures var w' := StartReceiving(w, id, dev).value;
            Consistent(w') && (Shared.Running(w.audio) && dev.Starts() ==> Shared.Running(w'.audio))
  {
    Shared.OtherStepsKeepSafe(w.audio, id, true, dev);
    SendsUntouched(w, StartReceiving(w, id, dev).value);
  }

  lemma StopReceivingKeepsConsistent(w: World, id: StreamId)
    requires Consistent(w) && StopReceiving(w, id).Ok?
    ensures var w' := StopReceiving(w, id).value;
            && Consistent(w') && id in w'.receives && !w'.receives[id]
            && (Shared.Running(w.audio) ==> Shared.Running(w'.audio))
  {
    Shared.OtherStepsKeepSafe(w.audio, id, true, Shared.DeviceAnswer(true, true));
    SendsUntouched(w, StopReceiving(w, id).value);
  }

  /** What does not concern send streams leaves them alone. */
  lemma SendsUntouched(w: World, w': World)
    requires Consistent(w)
    requires w'.sends == w.sends && w'.allocator == w.allocator && w'.audio.sending == w.audio.sending
    requires Shared.Safe(w'.audio)
    requires forall i :: i in w'.audio.receiving <==> i in w'.receives && w'.receives[i]
    ensures Consistent(w')
  {
    forall i | i in w'.sends
      ensures Invariant(MachineOf(w', i))
    {
      assert Invariant(MachineOf(w, i));
    }
  }

  /** Operations that neither create nor call a send stream leave those that remain, and the allocator, as they are. */
  lemma OtherOpsKeepStreams(w: World, op: Op)
    requires !op.CreateSend? && !op.SendCall? && Step(w, op).Ok?
    ensures var w' := Step(w, op).value;
            && w'.allocator == w.allocator && w'.pacesAudio == w.pacesAudio
            && forall i :: i in w'.sends ==> i in w.sends && w'.sends[i] == w.sends[i]
  {
  }
}
