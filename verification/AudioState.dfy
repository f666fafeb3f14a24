/** The state all audio streams of a call share: who receives and who sends, whether the audio device
    plays and records, and the poller that pulls audio while playout is disabled. */
module AudioState {
  import opened Basics

  datatype StreamProperties = StreamProperties(sampleRateHz: int, channels: nat)

  /** What the capture side hands recorded audio to, and in which format. */
  datatype Transport = Transport(senders: seq<StreamId>, sampleRateHz: int, channels: nat)

  /** How the device module answers: whether Init succeeds and whether Start then succeeds. */
  datatype DeviceAnswer = DeviceAnswer(initOk: bool, startOk: bool) {
    predicate Starts() {
      initOk && startOk
    }
  }

  datatype Audio = Audio(
    receiving: set<StreamId>,
    mixerSources: set<StreamId>,
    sending: map<StreamId, StreamProperties>,
    playoutEnabled: bool,
    recordingEnabled: bool,
    pollerRunning: bool,
    devicePlaying: bool,
    deviceRecording: bool,
    transport: Transport)

  const INITIAL := Audio({}, {}, map[], true, true, false, false, false, Transport([], 8000, 1))

  // ---------------------------------------------------------------- the transport summary

  function Least(s: set<StreamId>): (m: StreamId)
    requires s != {}
    ensures m in s && forall x :: x in s ==> m <= x
  {
    LeastExists(s);
    var m :| m in s && forall x :: x in s ==> m <= x;
    m
  }

  lemma LeastExists(s: set<StreamId>)
    requires s != {}
    ensures exists m :: m in s && forall x :: x in s ==> m <= x
  {
    var m := SomeLeast(s);
  }

  lemma {:induction false} SomeLeast(s: set<StreamId>) returns (m: StreamId)
    requires s != {}
    ensures m in s && forall x :: x in s ==> m <= x
    decreases |s|
  {
    m :| m in s;
    var rest := s - {m};
    assert forall x :: x in s ==> x == m || x in rest;
    if rest != {} {
      var least := SomeLeast(rest);
      m := if m <= least then m else least;
    }
  }

  /** The keys in the order in which std::map visits them. */
  function SortedKeys(s: set<StreamId>): seq<StreamId>
    decreases |s|
  {
    if s == {} then [] else [Least(s)] + SortedKeys(s - {Least(s)})
  }

  function Max(a: int, b: int): int {
    if a < b then b else a
  }

  function MaxRate(keys: seq<StreamId>, m: map<StreamId, StreamProperties>): int
    requires forall k :: k in keys ==> k in m
  {
    if keys == [] then 8000
    else Max(MaxRate(keys[..|keys| - 1], m), m[keys[|keys| - 1]].sampleRateHz)
  }

  function MaxChannels(keys: seq<StreamId>, m: map<StreamId, StreamProperties>): (r: nat)
    requires forall k :: k in keys ==> k in m
  {
    if keys == [] then 1
    else Max(MaxChannels(keys[..|keys| - 1], m), m[keys[|keys| - 1]].channels)
  }

  function Summary(m: map<StreamId, StreamProperties>): Transport {
    SortedKeysMembers(m.Keys);
    var keys := SortedKeys(m.Keys);
    Transport(keys, MaxRate(keys, m), MaxChannels(keys, m))
  }

  /** The transport serves exactly the streams of m, each once, at the least rate and channel count that
      cover every one of them and the floor of 8000 Hz mono. */
  ghost predicate Describes(t: Transport, m: map<StreamId, StreamProperties>) {
    && (forall i, j :: 0 <= i < j < |t.senders| ==> t.senders[i] < t.senders[j])
    && (forall k :: k in t.senders <==> k in m)
    && 8000 <= t.sampleRateHz
    && (forall k :: k in m ==> m[k].sampleRateHz <= t.sampleRateHz)
    && (t.sampleRateHz == 8000 || exists k :: k in m && m[k].sampleRateHz == t.sampleRateHz)
    && 1 <= t.channels
    && (forall k :: k in m ==> m[k].channels <= t.channels)
    && (t.channels == 1 || exists k :: k in m && m[k].channels == t.channels)
  }

  lemma {:induction false} SortedKeysMembers(s: set<StreamId>)
    ensures forall k :: k in SortedKeys(s) <==> k in s
    decreases |s|
  {
    if s != {} {
      SortedKeysMembers(s - {Least(s)});
    }
  }

  lemma {:induction false} SortedKeysIncrease(s: set<StreamId>)
    ensures forall i, j :: 0 <= i < j < |SortedKeys(s)| ==> SortedKeys(s)[i] < SortedKeys(s)[j]
    decreases |s|
  {
    if s != {} {
      var k := Least(s);
      var rest := SortedKeys(s - {k});
      SortedKeysIncrease(s - {k});
      SortedKeysMembers(s - {k});
      forall j | 0 <= j < |rest|
        ensures k < rest[j]
      {
        assert rest[j] in rest;
      }
      assert SortedKeys(s) == [k] + rest;
    }
  }

  /** How far a visit of the keys in their order has come: rest is still to be visited. */
  ghost predicate Visited(senders: seq<StreamId>, rest: set<StreamId>, m: map<StreamId, StreamProperties>) {
    && (forall k :: k in senders ==> k in m)
    && rest <= m.Keys
    && senders + SortedKeys(rest) == SortedKeys(m.Keys)
  }

  lemma VisitNext(senders: seq<StreamId>, rest: set<StreamId>, m: map<StreamId, StreamProperties>, k: StreamId)
    requires Visited(senders, rest, m)
    requires rest != {} && k == Least(rest)
    ensures Visited(senders + [k], rest - {k}, m)
    ensures MaxRate(senders + [k], m) == Max(MaxRate(senders, m), m[k].sampleRateHz)
    ensures MaxChannels(senders + [k], m) == Max(MaxChannels(senders, m), m[k].channels)
  {
    var later := SortedKeys(rest - {k});
    assert senders + ([k] + later) == (senders + [k]) + later;
    assert (senders + [k])[..|senders|] == senders;
  }

  lemma VisitComplete(senders: seq<StreamId>, m: map<StreamId, StreamProperties>)
    requires Visited(senders, {}, m)
    ensures Summary(m) == Transport(senders, MaxRate(senders, m), MaxChannels(senders, m))
  {
    assert senders + [] == senders;
  }

  lemma {:induction false} MaxRateCovers(keys: seq<StreamId>, m: map<StreamId, StreamProperties>)
    requires forall k :: k in keys ==> k in m
    ensures 8000 <= MaxRate(keys, m)
    ensures forall k :: k in keys ==> m[k].sampleRateHz <= MaxRate(keys, m)
    ensures MaxRate(keys, m) == 8000 || exists k :: k in keys && m[k].sampleRateHz == MaxRate(keys, m)
  {
    if keys == [] {
    } else {
      var front, last := keys[..|keys| - 1], keys[|keys| - 1];
      MaxRateCovers(front, m);
      assert forall k :: k in keys <==> k in front || k == last;
    }
  }

  lemma {:induction false} MaxChannelsCover(keys: seq<StreamId>, m: map<StreamId, StreamProperties>)
    requires forall k :: k in keys ==> k in m
    ensures 1 <= MaxChannels(keys, m)
    ensures forall k :: k in keys ==> m[k].channels <= MaxChannels(keys, m)
    ensures MaxChannels(keys, m) == 1 || exists k :: k in keys && m[k].channels == MaxChannels(keys, m)
  {
    if keys == [] {
    } else {
      var front, last := keys[..|keys| - 1], keys[|keys| - 1];
      MaxChannelsCover(front, m);
      assert forall k :: k in keys <==> k in front || k == last;
    }
  }

  lemma SummaryDescribes(m: map<StreamId, StreamProperties>)
    ensures Describes(Summary(m), m)
  {
    SortedKeysMembers(m.Keys);
    SortedKeysIncrease(m.Keys);
    MaxRateCovers(SortedKeys(m.Keys), m);
    MaxChannelsCover(SortedKeys(m.Keys), m);
  }

  /** Describes leaves no freedom: it determines the transport. */
  lemma DescribesIsExact(t: Transport, m: map<StreamId, StreamProperties>)
    requires Describes(t, m)
    ensures t == Summary(m)
  {
    SummaryDescribes(m);
    IncreasingUnique(t.senders, Summary(m).senders);
  }

  lemma {:induction false} IncreasingUnique(a: seq<StreamId>, b: seq<StreamId>)
    requires forall i, j :: 0 <= i < j < |a| ==> a[i] < a[j]
    requires forall i, j :: 0 <= i < j < |b| ==> b[i] < b[j]
    requires forall k :: k in a <==> k in b
    ensures a == b
  {
    if a != [] {
      assert a[0] in b;
    }
    if b != [] {
      assert b[0] in a;
    }
    if a == [] {
    } else {
      assert a[0] == b[0];
      forall k ensures k in a[1..] <==> k in b[1..] {
        assert k in a[1..] <==> k in a && k != a[0];
        assert k in b[1..] <==> k in b && k != b[0];
      }
      IncreasingUnique(a[1..], b[1..]);
    }
  }

  // ---------------------------------------------------------------- the operations, on values

  predicate PollerWanted(receiving: set<StreamId>, playoutEnabled: bool) {
    receiving != {} && !playoutEnabled
  }

  function SetPlayout(a: Audio, enabled: bool, dev: DeviceAnswer): Audio {
    a.(devicePlaying := enabled && (a.devicePlaying || (a.receiving != {} && dev.Starts())),
       playoutEnabled := enabled,
       pollerRunning := PollerWanted(a.receiving, enabled))
  }

  function AddReceivingStream(a: Audio, id: StreamId, dev: DeviceAnswer): Outcome<Audio> {
    if id in a.receiving then CheckFailed
    else
      Ok(a.(receiving := a.receiving + {id},
            mixerSources := a.mixerSources + {id},
            devicePlaying := a.devicePlaying || (a.playoutEnabled && dev.Starts()),
            pollerRunning := PollerWanted(a.receiving + {id}, a.playoutEnabled)))
  }

  function RemoveReceivingStream(a: Audio, id: StreamId): Outcome<Audio> {
    if id !in a.receiving then CheckFailed
    else
      var left := a.receiving - {id};
      Ok(a.(receiving := left,
            mixerSources := a.mixerSources - {id},
            devicePlaying := a.devicePlaying && left != {},
            pollerRunning := PollerWanted(left, a.playoutEnabled)))
  }

  function SetRecording(a: Audio, enabled: bool, dev: DeviceAnswer): Audio {
    a.(deviceRecording := enabled && (a.deviceRecording || (a.sending != map[] && dev.Starts())),
       recordingEnabled := enabled)
  }

  function AddSendingStream(a: Audio, id: StreamId, props: StreamProperties, dev: DeviceAnswer): Audio {
    var sending := a.sending[id := props];
    a.(sending := sending,
       transport := Summary(sending),
       deviceRecording := a.deviceRecording || (a.recordingEnabled && dev.Starts()))
  }

  function RemoveSendingStream(a: Audio, id: StreamId): Outcome<Audio> {
    if id !in a.sending then CheckFailed
    else
      var sending := a.sending - {id};
      Ok(a.(sending := sending,
            transport := Summary(sending),
            deviceRecording := a.deviceRecording && sending != map[]))
  }

  // ---------------------------------------------------------------- what every operation keeps

  /** The poller runs exactly when someone receives and playout is off; the device plays, or records, only
      when someone receives and playout is on, or someone sends and recording is on. */
  ghost predicate Safe(a: Audio) {
    && (a.pollerRunning <==> a.receiving != {} && !a.playoutEnabled)
    && (a.devicePlaying ==> a.receiving != {} && a.playoutEnabled)
    && (a.deviceRecording ==> a.sending != map[] && a.recordingEnabled)
    && a.mixerSources == a.receiving
    && Describes(a.transport, a.sending)
  }

  /** The device does play, and record, whenever it may. Holds as long as it never refuses to start. */
  predicate Running(a: Audio) {
    && (a.receiving != {} && a.playoutEnabled ==> a.devicePlaying)
    && (a.sending != map[] && a.recordingEnabled ==> a.deviceRecording)
  }

  lemma InitialIsSafe()
    ensures Safe(INITIAL) && Running(INITIAL)
  {
  }

  /** The mixer has never two pullers, and exactly one when someone receives and the device starts on request. */
  lemma OnePuller(a: Audio)
    requires Safe(a)
    ensures !(a.pollerRunning && a.devicePlaying)
    ensures Running(a) ==> (a.receiving != {} <==> a.pollerRunning || a.devicePlaying)
  {
  }

  lemma SendingStepsKeepSafe(a: Audio, id: StreamId, props: StreamProperties, dev: DeviceAnswer)
    requires Safe(a)
    ensures var added := AddSendingStream(a, id, props, dev);
            Safe(added) && (Running(a) && dev.Starts() ==> Running(added))
    ensures var removed := RemoveSendingStream(a, id);
            removed.Ok? ==> Safe(removed.value) && (Running(a) ==> Running(removed.value))
  {
    var added := a.sending[id := props];
    assert id in added;
    SummaryDescribes(added);
    SummaryDescribes(a.sending - {id});
  }

  lemma OtherStepsKeepSafe(a: Audio, id: StreamId, enabled: bool, dev: DeviceAnswer)
    requires Safe(a)
    ensures Safe(SetPlayout(a, enabled, dev)) && (Running(a) && dev.Starts() ==> Running(SetPlayout(a, enabled, dev)))
    ensures Safe(SetRecording(a, enabled, dev)) &&
            (Running(a) && dev.Starts() ==> Running(SetRecording(a, enabled, dev)))
    ensures var added := AddReceivingStream(a, id, dev);
            added.Ok? ==> Safe(added.value) && (Running(a) && dev.Starts() ==> Running(added.value))
    ensures var removed := RemoveReceivingStream(a, id);
            removed.Ok? ==> Safe(removed.value) && (Running(a) ==> Running(removed.value))
  {
    assert a.receiving + {id} != {} by { assert id in a.receiving + {id}; }
  }

  /** Who gets a captured frame, in order: the first sender last, with the original. */
  function Recipients(t: Transport): seq<StreamId> {
    if t.senders == [] then [] else t.senders[1..] + [t.senders[0]]
  }

  lemma {:induction false} IncreasingHasNoRepeats(s: seq<StreamId>, k: StreamId)
    requires forall i, j :: 0 <= i < j < |s| ==> s[i] < s[j]
    ensures multiset(s)[k] == if k in s then 1 else 0
  {
    if s == [] {
    } else {
      IncreasingHasNoRepeats(s[1..], k);
      assert s == [s[0]] + s[1..];
    }
  }

  /** Every stream the transport describes gets each frame exactly once, nobody else does, and the first gets it
      last. */
  lemma FramesReachEverySenderOnce(t: Transport, m: map<StreamId, StreamProperties>, k: StreamId)
    requires Describes(t, m)
    ensures multiset(Recipients(t))[k] == if k in m then 1 else 0
    ensures t.senders != [] ==> |Recipients(t)| == |t.senders| && Recipients(t)[|t.senders| - 1] == t.senders[0]
    ensures forall i :: 0 < i < |t.senders| ==> Recipients(t)[i - 1] == t.senders[i]
  {
    IncreasingHasNoRepeats(t.senders, k);
    if t.senders != [] {
      assert t.senders == [t.senders[0]] + t.senders[1..];
    }
  }
}
