/** The audio streams of a call and the objects they share, updated in place as in the source. Every method is proved
    against the function of the same name on values; a result of false stands for a check that fires. */
module AudioObjects {
  import opened Basics
  import Shared = AudioState

  ghost predicate Models<T(!new)>(expected: Outcome<T>, ok: bool, actual: T) {
    ok == expected.Ok? && (ok ==> actual == expected.value)
  }

  // ---------------------------------------------------------------- the shared audio state

  class AudioTransportImpl {
    var senders: seq<StreamId>
    var sampleRateHz: int
    var channels: nat

    constructor ()
      ensures Value() == Shared.Transport([], 8000, 1)
    {
      senders, sampleRateHz, channels := [], 8000, 1;
    }

    function Value(): Shared.Transport
      reads this
    {
      Shared.Transport(senders, sampleRateHz, channels)
    }

    method UpdateAudioSenders(senders: seq<StreamId>, sampleRateHz: int, channels: nat)
      modifies this
      ensures Value() == Shared.Transport(senders, sampleRateHz, channels)
    {
      this.senders, this.sampleRateHz, this.channels := senders, sampleRateHz, channels;
    }

    /** Hands one captured frame to every sender: copies to all but the first, then the original to the first. */
    method SendProcessedData<Frame>(frame: Frame) returns (deliveries: seq<(StreamId, Frame)>)
      ensures |deliveries| == |senders|
      ensures forall i :: 0 <= i < |senders| - 1 ==> deliveries[i] == (senders[i + 1], frame)
      ensures senders != [] ==> deliveries[|senders| - 1] == (senders[0], frame)
      ensures forall i :: 0 <= i < |deliveries| ==> deliveries[i].0 == Shared.Recipients(Value())[i]
    {
      deliveries := [];
      if senders == [] {
        return;
      }
      var it := 1;
      while it != |senders|
        invariant 1 <= it <= |senders|
        invariant |deliveries| == it - 1
        invariant forall i :: 0 <= i < |deliveries| ==> deliveries[i] == (senders[i + 1], frame)
      {
        deliveries := deliveries + [(senders[it], frame)];
        it := it + 1;
      }
      deliveries := deliveries + [(senders[0], frame)];
    }
  }

  class AudioState {
    var receivingStreams: set<StreamId>
    var mixerSources: set<StreamId>
    var sendingStreams: map<StreamId, Shared.StreamProperties>
    var playoutEnabled: bool
    var recordingEnabled: bool
    var pollerRunning: bool
    var devicePlaying: bool
    var deviceRecording: bool
    const transport: AudioTransportImpl

    constructor ()
      ensures Value() == Shared.INITIAL && fresh(transport)
    {
      receivingStreams, mixerSources, sendingStreams := {}, {}, map[];
      playoutEnabled, recordingEnabled, pollerRunning := true, true, false;
      devicePlaying, deviceRecording := false, false;
      transport := new AudioTransportImpl();
    }

    function Value(): Shared.Audio
      reads this, transport
    {
      Shared.Audio(receivingStreams, mixerSources, sendingStreams, playoutEnabled, recordingEnabled, pollerRunning,
                   devicePlaying, deviceRecording, transport.Value())
    }

    method SetPlayout(enabled: bool, dev: Shared.DeviceAnswer)
      modifies this
      ensures Value() == Shared.SetPlayout(old(Value()), enabled, dev)
      ensures playoutEnabled == enabled && pollerRunning == (!enabled && receivingStreams != {})
    {
      if enabled {
        if receivingStreams != {} && !devicePlaying {
          devicePlaying := dev.initOk && dev.startOk;
        }
      } else {
        devicePlaying := false;
      }
      playoutEnabled := enabled;
      UpdateNullAudioPollerState();
    }

    method AddReceivingStream(id: StreamId, dev: Shared.DeviceAnswer) returns (ok: bool)
      modifies this
      ensures Models(Shared.AddReceivingStream(old(Value()), id, dev), ok, Value())
    {
      if id in receivingStreams {
        return false;
      }
      receivingStreams := receivingStreams + {id};
      mixerSources := mixerSources + {id};
      if playoutEnabled && !devicePlaying {
        devicePlaying := dev.initOk && dev.startOk;
      }
      UpdateNullAudioPollerState();
      ok := true;
    }

    method RemoveReceivingStream(id: StreamId) returns (ok: bool)
      modifies this
      ensures Models(Shared.RemoveReceivingStream(old(Value()), id), ok, Value())
    {
      if id !in receivingStreams {
        return false;
      }
      receivingStreams := receivingStreams - {id};
      mixerSources := mixerSources - {id};
      if receivingStreams == {} {
        devicePlaying := false;
      }
      UpdateNullAudioPollerState();
      ok := true;
    }

    method SetRecording(enabled: bool, dev: Shared.DeviceAnswer)
      modifies this
      ensures Value() == Shared.SetRecording(old(Value()), enabled, dev)
      ensures recordingEnabled == enabled && (!enabled ==> !deviceRecording)
    {
      if enabled {
        if sendingStreams != map[] && !deviceRecording {
          deviceRecording := dev.initOk && dev.startOk;
        }
      } else {
        deviceRecording := false;
      }
      recordingEnabled := enabled;
    }

    method AddSendingStream(id: StreamId, sampleRateHz: int, channels: nat, dev: Shared.DeviceAnswer)
      modifies this, transport
      ensures Value() ==
              Shared.AddSendingStream(old(Value()), id, Shared.StreamProperties(sampleRateHz, channels), dev)
    {
      sendingStreams := sendingStreams[id := Shared.StreamProperties(sampleRateHz, channels)];
      UpdateAudioTransportWithSendingStreams();
      if recordingEnabled && !deviceRecording {
        deviceRecording := dev.initOk && dev.startOk;
      }
    }

    method RemoveSendingStream(id: StreamId) returns (ok: bool)
      modifies this, transport
      ensures Models(Shared.RemoveSendingStream(old(Value()), id), ok, Value())
    {
      if id !in sendingStreams {
        return false;
      }
      sendingStreams := sendingStreams - {id};
      UpdateAudioTransportWithSendingStreams();
      if sendingStreams == map[] {
        deviceRecording := false;
      }
      ok := true;
    }

    /** Visits the sending streams in the order of their addresses. */
    method UpdateAudioTransportWithSendingStreams()
      modifies transport
      ensures transport.Value() == Shared.Summary(sendingStreams)
    {
      var audioSenders: seq<StreamId> := [];
      var maxSampleRateHz := 8000;
      var maxChannels := 1;
      var rest := sendingStreams.Keys;
      while rest != {}
        invariant Shared.Visited(audioSenders, rest, sendingStreams)
        invariant maxSampleRateHz == Shared.MaxRate(audioSenders, sendingStreams)
        invariant maxChannels == Shared.MaxChannels(audioSenders, sendingStreams)
        decreases rest
      {
        var k := Shared.Least(rest);
        Shared.VisitNext(audioSenders, rest, sendingStreams, k);
        audioSenders := audioSenders + [k];
        maxSampleRateHz := Shared.Max(maxSampleRateHz, sendingStreams[k].sampleRateHz);
        maxChannels := Shared.Max(maxChannels, sendingStreams[k].channels);
        rest := rest - {k};
      }
      Shared.VisitComplete(audioSenders, sendingStreams);
      transport.UpdateAudioSenders(audioSenders, maxSampleRateHz, maxChannels);
    }

    method UpdateNullAudioPollerState()
      modifies this`pollerRunning
      ensures pollerRunning == Shared.PollerWanted(receivingStreams, playoutEnabled)
    {
      if receivingStreams != {} && !playoutEnabled {
        if !pollerRunning {
          pollerRunning := true;
        }
      } else {
        pollerRunning := false;
      }
    }
  }

  class AudioReceiveStream {
    const id: StreamId
    const audioState: AudioState
    var playing: bool

    constructor (id: StreamId, audioState: AudioState)
      ensures this.id == id && this.audioState == audioState && !playing
    {
      this.id, this.audioState, playing := id, audioState, false;
    }

    method Start(dev: Shared.DeviceAnswer) returns (ok: bool)
      modifies this, audioState
      ensures old(playing) ==> ok && playing && audioState.Value() == old(audioState.Value())
      ensures !old(playing) ==>
                playing && Models(Shared.AddReceivingStream(old(audioState.Value()), id, dev), ok, audioState.Value())
    {
      if playing {
        return true;
      }
      playing := true;
      ok := audioState.AddReceivingStream(id, dev);
    }

    method Stop() returns (ok: bool)
      modifies this, audioState
      ensures !old(playing) ==> ok && !playing && audioState.Value() == old(audioState.Value())
      ensures old(playing) ==>
                !playing && Models(Shared.RemoveReceivingStream(old(audioState.Value()), id), ok, audioState.Value())
    {
      if !playing {
        return true;
      }
      playing := false;
      ok := audioState.RemoveReceivingStream(id);
    }
  }
}
