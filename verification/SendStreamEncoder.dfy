/** Reconfiguring the live encoder against building it anew: exactly when the two cannot be told apart, whatever state
    the encoder was in before, and more simply for one that was as good as new. */
module SendStreamEncoder {
  import opened Basics
  import opened AudioEncoders
  import opened SendStream
  import opened SendStreamInvariants
  import opened SendStreamCaches
  import Shared = AudioState

  /** What SetupSendCodec followed by UpdateOverheadPerPacket would build for a configuration. */
  function FreshEncoder(settings: Settings, config: Config, overhead: nat): Option<Encoder> {
    if config.codec.None? || config.codec.value.format !in settings.factory then None
    else
      var spec := config.codec.value;
      Some(KnowingOverhead(Stack(settings.factory[spec.format], config.adaptorConfig, spec), overhead))
  }

  predicate Indistinguishable(a: Option<Encoder>, b: Option<Encoder>) {
    if a.Some? && b.Some? then Observable(a.value) == Observable(b.value) else a == b
  }

  predicate EncoderCurrent(s: Stream) {
    Indistinguishable(s.encoder, FreshEncoder(s.settings, s.config, s.overheadPerPacket))
  }

  // ---------------------------------------------------------------- what there is to tell

  function Known(overhead: nat): Option<nat> {
    if 0 < overhead then Some(overhead) else None
  }

  function AdaptorInUse(speech: Encoder): Option<string>
    requires speech.Speech?
  {
    if speech.adaptor.Some? then Some(speech.adaptor.value.config) else None
  }

  function OverheadInUse(speech: Encoder): Option<nat>
    requires speech.Speech?
  {
    if speech.adaptor.Some? then speech.adaptor.value.overhead else speech.plainOverhead
  }

  /** The layers of a stack, from the outside: redundancy, comfort noise, speech. */
  predicate HasLayers(e: Encoder, cng: Option<int>, red: Option<int>) {
    if red.Some? then e.Red? && e.payloadType == red.value && CngLayer(e.inner, cng) else CngLayer(e, cng)
  }

  predicate CngLayer(e: Encoder, cng: Option<int>) {
    if cng.Some? then e.Cng? && e.payloadType == cng.value && e.inner.Speech? else e.Speech?
  }

  /** A speech encoder that could be a new one: behind a comfort-noise wrapper it was not told the overhead. */
  predicate SpeechIsAsNew(speech: Encoder, frames: Frames, profile: Profile, adaptorConfig: Option<string>,
                          cng: Option<int>, overhead: nat)
    requires speech.Speech?
  {
    && speech.profile == profile
    && AdaptorInUse(speech) == Accepted(profile, adaptorConfig)
    && OverheadInUse(speech) == (if cng.Some? then None else Known(overhead))
    && (speech.adaptor.Some? || frames == NewFrames(profile))
  }

  predicate IsAsNew(e: Encoder, frames: Frames, profile: Profile, adaptorConfig: Option<string>, spec: CodecSpec,
                    overhead: nat)
  {
    && HasLayers(e, spec.cngPayloadType, spec.redPayloadType)
    && (spec.redPayloadType.Some? ==> e.packetOverhead == overhead)
    && SpeechIsAsNew(Core(e), frames, profile, adaptorConfig, spec.cngPayloadType, overhead)
  }

  // ---------------------------------------------------------------- stacks built anew

  /** A stack put together from its speech encoder outwards. */
  function Assemble(speech: Encoder, cng: Option<int>, red: Option<int>, overhead: nat): Encoder {
    var inner := WrapCng(speech, cng);
    if red.Some? then Red(red.value, overhead, inner) else inner
  }

  /** The speech encoder of a stack built anew. */
  function FreshSpeech(profile: Profile, adaptorConfig: Option<string>, cng: Option<int>, overhead: nat): Encoder {
    var speech := SpeechEncoder(profile, adaptorConfig);
    if 0 < overhead && cng.None? then OnReceivedOverhead(speech, overhead) else speech
  }

  lemma FreshStack(profile: Profile, adaptorConfig: Option<string>, spec: CodecSpec, overhead: nat)
    ensures KnowingOverhead(Stack(profile, adaptorConfig, spec), overhead) ==
            Assemble(FreshSpeech(profile, adaptorConfig, spec.cngPayloadType, overhead),
                     spec.cngPayloadType, spec.redPayloadType, overhead)
  {
    var inner := WrapCng(SpeechEncoder(profile, adaptorConfig), spec.cngPayloadType);
    assert OnReceivedOverhead(inner, overhead) ==
           WrapCng(if spec.cngPayloadType.None? then OnReceivedOverhead(SpeechEncoder(profile, adaptorConfig), overhead)
                   else SpeechEncoder(profile, adaptorConfig), spec.cngPayloadType);
  }

  lemma {:induction false} ObservableCore(e: Encoder)
    ensures Core(Observable(e)) == Observable(Core(e))
  {
    if e.Speech? {
    } else {
      ObservableCore(e.inner);
    }
  }

  lemma LooksLikeExactlyWhen(e: Encoder, speech: Encoder, cng: Option<int>, red: Option<int>, overhead: nat)
    requires speech.Speech?
    ensures Observable(e) == Observable(Assemble(speech, cng, red, overhead)) <==>
            && HasLayers(e, cng, red)
            && (red.Some? ==> e.packetOverhead == overhead)
            && Observable(Core(e)) == Observable(speech)
  {
    var whole := Assemble(speech, cng, red, overhead);
    var inner := WrapCng(speech, cng);
    assert Observable(inner) == WrapCng(Observable(speech), cng);
    if red.Some? {
      assert Observable(whole) == Red(red.value, overhead, Observable(inner));
      if e.Red? {
        CngLayerLooksLike(e.inner, speech, cng);
      }
    } else {
      CngLayerLooksLike(e, speech, cng);
    }
  }

  lemma CngLayerLooksLike(e: Encoder, speech: Encoder, cng: Option<int>)
    requires speech.Speech?
    ensures Observable(e) == WrapCng(Observable(speech), cng) <==>
            CngLayer(e, cng) && Observable(Core(e)) == Observable(speech)
  {
    ObservableCore(e);
    if e.Cng? && !e.inner.Speech? {
      assert !Observable(e.inner).Speech?;
    }
  }

  lemma SpeechLooksNewExactlyWhen(speech: Encoder, profile: Profile, adaptorConfig: Option<string>, cng: Option<int>,
                                  overhead: nat)
    requires speech.Speech?
    ensures Observable(speech) == Observable(FreshSpeech(profile, adaptorConfig, cng, overhead)) <==>
            SpeechIsAsNew(speech, speech.frames, profile, adaptorConfig, cng, overhead)
  {
  }

  /** Nothing but the listed values tells an encoder from a new one. */
  lemma LooksNewExactlyWhen(e: Encoder, profile: Profile, adaptorConfig: Option<string>, spec: CodecSpec, overhead: nat)
    ensures Observable(e) == Observable(KnowingOverhead(Stack(profile, adaptorConfig, spec), overhead)) <==>
            IsAsNew(e, Core(e).frames, profile, adaptorConfig, spec, overhead)
  {
    var anew := FreshSpeech(profile, adaptorConfig, spec.cngPayloadType, overhead);
    FreshStack(profile, adaptorConfig, spec, overhead);
    LooksLikeExactlyWhen(e, anew, spec.cngPayloadType, spec.redPayloadType, overhead);
    SpeechLooksNewExactlyWhen(Core(e), profile, adaptorConfig, spec.cngPayloadType, overhead);
  }

  // ---------------------------------------------------------------- what reaches the speech encoder

  /** Overhead reaches the speech encoder through redundancy, but not through comfort noise. */
  lemma {:induction false} OverheadReachesCore(e: Encoder, bytes: nat)
    ensures Core(OnReceivedOverhead(e, bytes)) ==
            if AdaptorReachable(e) then OnReceivedOverhead(Core(e), bytes) else Core(e)
    ensures e.Red? ==> OnReceivedOverhead(e, bytes) == Red(e.payloadType, bytes, OnReceivedOverhead(e.inner, bytes))
    ensures SameShape(e, OnReceivedOverhead(e, bytes))
  {
    match e
    case Speech(_, _, _, _) =>
    case Cng(_, _) => ShapeIsSame(e);
    case Red(_, _, inner) => OverheadReachesCore(inner, bytes);
  }

  /** Encoders with the same layers around possibly different speech encoders. */
  predicate SameShape(a: Encoder, b: Encoder) {
    match a
    case Speech(_, _, _, _) => b.Speech?
    case Cng(pt, inner) => b.Cng? && b.payloadType == pt && SameShape(inner, b.inner)
    case Red(pt, _, inner) => b.Red? && b.payloadType == pt && SameShape(inner, b.inner)
  }

  lemma {:induction false} ShapeIsSame(e: Encoder)
    ensures SameShape(e, e)
  {
    if e.Speech? {
    } else {
      ShapeIsSame(e.inner);
    }
  }

  lemma SameShapeSameCngLayer(a: Encoder, b: Encoder, cng: Option<int>)
    requires SameShape(a, b)
    ensures CngLayer(a, cng) <==> CngLayer(b, cng)
  {
    assert a.Cng? ==> (a.inner.Speech? <==> b.inner.Speech?);
  }

  lemma SameShapeSameLayers(a: Encoder, b: Encoder, cng: Option<int>, red: Option<int>)
    requires SameShape(a, b)
    ensures HasLayers(a, cng, red) <==> HasLayers(b, cng, red)
    ensures SameShape(Unwrapped(a), Unwrapped(b))
  {
    SameShapeSameCngLayer(a, b, cng);
    if a.Red? {
      SameShapeSameCngLayer(a.inner, b.inner, cng);
    }
  }

  /** Whether an adaptor change enables an adaptor. */
  predicate Enables(e: Encoder, prior: Option<string>, next: Option<string>) {
    next != prior && AdaptorReachable(e) && Accepted(Core(e).profile, next).Some?
  }

  lemma {:induction false} EnabledExactlyWhen(e: Encoder, config: string)
    ensures EnableAudioNetworkAdaptor(e, config).1 <==> AdaptorReachable(e) && config in Core(e).profile.accepts
  {
    match e
    case Speech(_, _, _, _) =>
    case Cng(_, _) =>
    case Red(_, _, inner) => EnabledExactlyWhen(inner, config);
  }

  function PacketOverheadAfter(e: Encoder, layer: Encoder, prior: Option<string>, next: Option<string>,
                               overhead: nat): nat
    requires layer.Red?
  {
    if Enables(e, prior, next) && 0 < overhead then overhead else layer.packetOverhead
  }

  /** A redundancy wrapper passes an adaptor change on, a comfort-noise wrapper ignores it. */
  lemma AdaptorOnLayer(e: Encoder, prior: Option<string>, next: Option<string>, overhead: nat)
    ensures var e1 := ReconfigureAdaptor(e, prior, next, overhead);
            && (e.Speech? ==> e1.Speech?)
            && (e.Cng? ==> e1 == e)
            && (e.Red? ==> e1 == Red(e.payloadType, PacketOverheadAfter(e, e, prior, next, overhead),
                                     ReconfigureAdaptor(e.inner, prior, next, overhead)))
  {
    if next.Some? {
      EnabledExactlyWhen(e, next.value);
      if e.Red? {
        EnabledExactlyWhen(e.inner, next.value);
      }
    }
  }

  /** An adaptor change reaches the speech encoder exactly without comfort noise around it. */
  lemma {:induction false} AdaptorReachesCore(e: Encoder, prior: Option<string>, next: Option<string>, overhead: nat)
    ensures var e1 := ReconfigureAdaptor(e, prior, next, overhead);
            && Core(e1) == (if AdaptorReachable(e) then ReconfigureAdaptor(Core(e), prior, next, overhead) else Core(e))
            && SameShape(e, e1)
  {
    AdaptorOnLayer(e, prior, next, overhead);
    match e
    case Speech(_, _, _, _) =>
    case Cng(_, _) => ShapeIsSame(e);
    case Red(_, _, inner) => AdaptorReachesCore(inner, prior, next, overhead);
  }

  // ---------------------------------------------------------------- in place, from any encoder

  /** The encoder after the adaptor, comfort-noise and overhead steps of Reconfigure. */
  function InPlace(e: Encoder, prior: Config, config: Config, overhead: nat, overhead': nat): Outcome<Encoder>
    requires prior.codec.Some? && config.codec.Some?
  {
    var e1 := ReconfigureAdaptor(e, prior.adaptorConfig, config.adaptorConfig, overhead);
    var e2 :- ReconfigureCng(Some(e1), prior.codec.value.cngPayloadType, config.codec.value.cngPayloadType);
    if e2.None? then CheckFailed
    else Ok(if overhead' != overhead then OnReceivedOverhead(e2.value, overhead') else e2.value)
  }

  /** The layer a comfort-noise change works on: it takes off whatever wrapper is outermost. */
  function KeptLayer(e: Encoder, cng: Option<int>, cng': Option<int>): Encoder {
    if cng == cng' then e else Unwrapped(e)
  }

  /** The layers come out right: unchanged, or with one taken off and comfort noise, if any, put around bare speech. */
  predicate LayersComeOut(e: Encoder, cng: Option<int>, cng': Option<int>, red': Option<int>) {
    if cng == cng' then HasLayers(e, cng', red')
    else if cng'.Some? then red'.None? && Unwrapped(e).Speech?
    else HasLayers(Unwrapped(e), None, red')
  }

  /** The speech encoder comes out right, given whether adaptor changes reach it: with the adaptor a new one would have,
      the overhead it would be told, and, without an adaptor, its frame lengths. Losing an adaptor brings back the
      overhead known without one and shows the frame lengths the adaptor picked last. */
  predicate SpeechComesOut(speech: Encoder, reachable: bool, profile: Profile,
                           prior: Option<string>, next: Option<string>,
                           cng': Option<int>, overhead: nat, overhead': nat)
    requires speech.Speech?
  {
    var changes := reachable && prior != next;
    var adaptor := if changes then Accepted(speech.profile, next) else AdaptorInUse(speech);
    var told := if !changes then OverheadInUse(speech)
                else if adaptor.Some? then Known(overhead) else speech.plainOverhead;
    && speech.profile == profile
    && adaptor == Accepted(profile, next)
    && (if cng'.Some? then told.None?
        else if overhead' != overhead then overhead' != 0
        else told == Known(overhead'))
    && (adaptor.Some? || speech.frames == NewFrames(profile))
  }

  predicate ComesOutAsNew(e: Encoder, profile: Profile, prior: Config, config: Config, overhead: nat, overhead': nat)
    requires prior.codec.Some? && config.codec.Some?
  {
    var cng, cng', red' :=
      prior.codec.value.cngPayloadType, config.codec.value.cngPayloadType, config.codec.value.redPayloadType;
    && LayersComeOut(e, cng, cng', red')
    && (red'.Some? ==>
          || overhead' != overhead
          || PacketOverheadAfter(e, KeptLayer(e, cng, cng'), prior.adaptorConfig, config.adaptorConfig, overhead) ==
             overhead')
    && SpeechComesOut(Core(e), AdaptorReachable(e), profile, prior.adaptorConfig, config.adaptorConfig, cng',
                      overhead, overhead')
  }

  lemma SpeechComesOutExactlyWhen(speech: Encoder, reachable: bool, profile: Profile,
                                  prior: Option<string>, next: Option<string>,
                                  cng': Option<int>, overhead: nat, overhead': nat)
    requires speech.Speech?
    ensures var speech1 := if reachable then ReconfigureAdaptor(speech, prior, next, overhead) else speech;
            var speech2 := if overhead' != overhead && cng'.None? then OnReceivedOverhead(speech1, overhead')
                           else speech1;
            SpeechIsAsNew(speech2, speech2.frames, profile, next, cng', overhead') <==>
            SpeechComesOut(speech, reachable, profile, prior, next, cng', overhead, overhead')
  {
    if !reachable || prior == next {
    } else if next.None? {
    } else {
    }
  }

  /** The layers after the adaptor and comfort-noise steps. */
  lemma LayersComeOutExactlyWhen(e: Encoder, e1: Encoder, cng: Option<int>, cng': Option<int>, red': Option<int>)
    requires SameShape(e, e1)
    ensures var e2 := if cng == cng' then e1 else WrapCng(Unwrapped(e1), cng');
            HasLayers(e2, cng', red') <==> LayersComeOut(e, cng, cng', red')
  {
    SameShapeSameLayers(e, e1, cng', red');
    SameShapeSameLayers(Unwrapped(e), Unwrapped(e1), None, red');
  }

  lemma ReachableExactlyWhen(e: Encoder, cng: Option<int>, red: Option<int>)
    requires HasLayers(e, cng, red)
    ensures AdaptorReachable(e) <==> cng.None?
  {
  }

  /** The packet overhead a redundancy wrapper is left with by the adaptor step. */
  lemma PacketOverheadComesOut(e: Encoder, prior: Option<string>, next: Option<string>, overhead: nat,
                               cng: Option<int>, cng': Option<int>, red': Option<int>)
    requires LayersComeOut(e, cng, cng', red') && red'.Some?
    ensures var e1 := ReconfigureAdaptor(e, prior, next, overhead);
            KeptLayer(e, cng, cng').Red? && KeptLayer(e1, cng, cng').Red? &&
            KeptLayer(e1, cng, cng').packetOverhead ==
            PacketOverheadAfter(e, KeptLayer(e, cng, cng'), prior, next, overhead)
  {
    AdaptorOnLayer(e, prior, next, overhead);
    if e.Red? {
      AdaptorOnLayer(e.inner, prior, next, overhead);
    }
  }

  /** The steps before the overhead is delivered. */
  lemma BeforeOverhead(e: Encoder, prior: Config, config: Config, overhead: nat) returns (e2: Encoder)
    requires prior.codec.Some? && config.codec.Some?
    requires var e1 := ReconfigureAdaptor(e, prior.adaptorConfig, config.adaptorConfig, overhead);
             ReconfigureCng(Some(e1), prior.codec.value.cngPayloadType, config.codec.value.cngPayloadType).Ok?
    ensures var e1 := ReconfigureAdaptor(e, prior.adaptorConfig, config.adaptorConfig, overhead);
            ReconfigureCng(Some(e1), prior.codec.value.cngPayloadType, config.codec.value.cngPayloadType) ==
            Ok(Some(e2))
    ensures var cng, cng', red' :=
              prior.codec.value.cngPayloadType, config.codec.value.cngPayloadType, config.codec.value.redPayloadType;
            && (HasLayers(e2, cng', red') <==> LayersComeOut(e, cng, cng', red'))
            && (HasLayers(e2, cng', red') && red'.Some? ==>
                  && KeptLayer(e, cng, cng').Red?
                  && e2.packetOverhead ==
                     PacketOverheadAfter(e, KeptLayer(e, cng, cng'), prior.adaptorConfig, config.adaptorConfig,
                                         overhead))
            && Core(e2) == (if AdaptorReachable(e)
                            then ReconfigureAdaptor(Core(e), prior.adaptorConfig, config.adaptorConfig, overhead)
                            else Core(e))
  {
    var cng, cng', red' :=
      prior.codec.value.cngPayloadType, config.codec.value.cngPayloadType, config.codec.value.redPayloadType;
    var e1 := ReconfigureAdaptor(e, prior.adaptorConfig, config.adaptorConfig, overhead);
    e2 := ReconfigureCng(Some(e1), cng, cng').value.value;
    assert e2 == if cng == cng' then e1 else WrapCng(Unwrapped(e1), cng');
    AdaptorReachesCore(e, prior.adaptorConfig, config.adaptorConfig, overhead);
    LayersComeOutExactlyWhen(e, e1, cng, cng', red');
    if HasLayers(e2, cng', red') && red'.Some? {
      PacketOverheadComesOut(e, prior.adaptorConfig, config.adaptorConfig, overhead, cng, cng', red');
    }
  }

  /** The overhead step. */
  lemma AfterOverhead(e: Encoder, profile: Profile, adaptorConfig: Option<string>, spec: CodecSpec,
                      overhead: nat, overhead': nat)
    ensures var e' := if overhead' != overhead then OnReceivedOverhead(e, overhead') else e;
            var hears := overhead' != overhead && spec.cngPayloadType.None?;
            var speech := if hears then OnReceivedOverhead(Core(e), overhead') else Core(e);
            IsAsNew(e', Core(e').frames, profile, adaptorConfig, spec, overhead') <==>
            && HasLayers(e, spec.cngPayloadType, spec.redPayloadType)
            && (spec.redPayloadType.Some? ==> overhead' != overhead || e.packetOverhead == overhead')
            && SpeechIsAsNew(speech, speech.frames, profile, adaptorConfig, spec.cngPayloadType, overhead')
  {
    var cng, red := spec.cngPayloadType, spec.redPayloadType;
    OverheadReachesCore(e, overhead');
    SameShapeSameLayers(e, OnReceivedOverhead(e, overhead'), cng, red);
    if HasLayers(e, cng, red) {
      ReachableExactlyWhen(e, cng, red);
    }
  }

  /** Whatever the encoder was, reconfiguring it in place gives one that cannot be told from a new one exactly if its
      layers, the packet overhead of a redundancy wrapper and its speech encoder come out right. */
  lemma InPlaceComesOutExactlyWhen(e: Encoder, profile: Profile, prior: Config, config: Config,
                                   overhead: nat, overhead': nat)
    requires prior.codec.Some? && config.codec.Some?
    requires InPlace(e, prior, config, overhead, overhead').Ok?
    ensures Observable(InPlace(e, prior, config, overhead, overhead').value) ==
            Observable(KnowingOverhead(Stack(profile, config.adaptorConfig, config.codec.value), overhead'))
            <==> ComesOutAsNew(e, profile, prior, config, overhead, overhead')
  {
    var spec := config.codec.value;
    var e2 := BeforeOverhead(e, prior, config, overhead);
    AfterOverhead(e2, profile, config.adaptorConfig, spec, overhead, overhead');
    LooksNewExactlyWhen(InPlace(e, prior, config, overhead, overhead').value, profile,
                        config.adaptorConfig, spec, overhead');
    SpeechComesOutExactlyWhen(Core(e), AdaptorReachable(e), profile, prior.adaptorConfig, config.adaptorConfig,
                              spec.cngPayloadType, overhead, overhead');
  }

  /** A change of comfort noise takes a redundancy wrapper off instead. */
  lemma CngChangeDropsRed(e: Encoder, prior: Config, config: Config, overhead: nat, overhead': nat)
    requires e.Red? && !e.inner.Red?
    requires prior.codec.Some? && config.codec.Some?
    requires prior.codec.value.cngPayloadType != config.codec.value.cngPayloadType
    ensures var r := InPlace(e, prior, config, overhead, overhead');
            r.Ok? ==> !r.value.Red? && !Observable(r.value).Red?
  {
    AdaptorOnLayer(e, prior.adaptorConfig, config.adaptorConfig, overhead);
    AdaptorOnLayer(e.inner, prior.adaptorConfig, config.adaptorConfig, overhead);
  }

  // ---------------------------------------------------------------- in place, from one as good as new

  /** A comfort-noise wrapper does not swallow an adaptor change; the speech encoder ends up with the overhead a new one
      would be told; and if it loses its adaptor, it is back at its own frame lengths. */
  predicate SpeechFollows(speech: Encoder, prior: Option<string>, next: Option<string>,
                          cng: Option<int>, cng': Option<int>, overhead: nat, overhead': nat)
    requires speech.Speech?
  {
    var told := if cng.Some? then None
                else if prior == next || Accepted(speech.profile, next).Some? then Known(overhead)
                else speech.plainOverhead;
    && (prior == next || cng.None? || Accepted(speech.profile, prior) == Accepted(speech.profile, next))
    && (if cng'.Some? then told.None? else if overhead' != overhead then overhead' != 0 else told == Known(overhead'))
    && (prior == next || Accepted(speech.profile, next).Some? || speech.frames == NewFrames(speech.profile))
  }

  /** Reconfiguring the encoder in place agrees with building it anew when, besides, no redundancy wrapper gets in the
      way of a comfort-noise change. */
  predicate InPlaceFollows(e: Encoder, prior: Config, config: Config, overhead: nat, overhead': nat)
    requires prior.codec.Some? && config.codec.Some?
  {
    var before, after := prior.codec.value, config.codec.value;
    && (before.cngPayloadType == after.cngPayloadType || before.redPayloadType.None?)
    && SpeechFollows(Core(e), prior.adaptorConfig, config.adaptorConfig,
                     before.cngPayloadType, after.cngPayloadType, overhead, overhead')
  }

  lemma NewSpeechFollowsExactlyWhen(speech: Encoder, profile: Profile, prior: Option<string>, next: Option<string>,
                                    cng: Option<int>, cng': Option<int>, overhead: nat, overhead': nat)
    requires speech.Speech?
    requires SpeechIsAsNew(speech, speech.frames, profile, prior, cng, overhead)
    ensures SpeechComesOut(speech, cng.None?, profile, prior, next, cng', overhead, overhead') <==>
            SpeechFollows(speech, prior, next, cng, cng', overhead, overhead')
  {
  }

  lemma NewLayersFollowExactlyWhen(e: Encoder, cng: Option<int>, cng': Option<int>, red: Option<int>)
    requires HasLayers(e, cng, red)
    ensures LayersComeOut(e, cng, cng', red) <==> cng == cng' || red.None?
  {
  }

  lemma InPlaceFollowsExactlyWhen(e: Encoder, profile: Profile, prior: Config, config: Config,
                                  overhead: nat, overhead': nat)
    requires prior.codec.Some? && config.codec.Some?
    requires prior.codec.value.redPayloadType == config.codec.value.redPayloadType
    requires Observable(e) ==
             Observable(KnowingOverhead(Stack(profile, prior.adaptorConfig, prior.codec.value), overhead))
    requires InPlace(e, prior, config, overhead, overhead').Ok?
    ensures Observable(InPlace(e, prior, config, overhead, overhead').value) ==
            Observable(KnowingOverhead(Stack(profile, config.adaptorConfig, config.codec.value), overhead'))
            <==> InPlaceFollows(e, prior, config, overhead, overhead')
  {
    LooksNewExactlyWhen(e, profile, prior.adaptorConfig, prior.codec.value, overhead);
    NewOneFollowsExactlyWhen(e, profile, prior, config, overhead, overhead');
    InPlaceComesOutExactlyWhen(e, profile, prior, config, overhead, overhead');
  }

  lemma NewOneFollowsExactlyWhen(e: Encoder, profile: Profile, prior: Config, config: Config,
                                 overhead: nat, overhead': nat)
    requires prior.codec.Some? && config.codec.Some?
    requires prior.codec.value.redPayloadType == config.codec.value.redPayloadType
    requires IsAsNew(e, Core(e).frames, profile, prior.adaptorConfig, prior.codec.value, overhead)
    ensures ComesOutAsNew(e, profile, prior, config, overhead, overhead') <==>
            InPlaceFollows(e, prior, config, overhead, overhead')
  {
    var before, after := prior.codec.value, config.codec.value;
    ReachableExactlyWhen(e, before.cngPayloadType, before.redPayloadType);
    NewLayersFollowExactlyWhen(e, before.cngPayloadType, after.cngPayloadType, before.redPayloadType);
    NewSpeechFollowsExactlyWhen(Core(e), profile, prior.adaptorConfig, config.adaptorConfig,
                                before.cngPayloadType, after.cngPayloadType, overhead, overhead');
  }

  // ---------------------------------------------------------------- the calls

  /** A rebuilt encoder is told the old overhead and then, if it changed, the new one, even if that is zero. */
  lemma NewEncoderFollowsExactlyWhen(profile: Profile, config: Config, overhead: nat, overhead': nat)
    requires config.codec.Some?
    ensures var spec := config.codec.value;
            var stack := Stack(profile, config.adaptorConfig, spec);
            var e := KnowingOverhead(stack, overhead);
            var e' := if overhead' != overhead then OnReceivedOverhead(e, overhead') else e;
            Observable(e') == Observable(KnowingOverhead(stack, overhead')) <==>
            overhead' != 0 || overhead == 0 || spec.cngPayloadType.Some?
  {
    var spec := config.codec.value;
    var e := KnowingOverhead(Stack(profile, config.adaptorConfig, spec), overhead);
    LooksNewExactlyWhen(e, profile, config.adaptorConfig, spec, overhead);
    AfterOverhead(e, profile, config.adaptorConfig, spec, overhead, overhead');
    LooksNewExactlyWhen(if overhead' != overhead then OnReceivedOverhead(e, overhead') else e,
                        profile, config.adaptorConfig, spec, overhead');
  }

  /** Whether Reconfigure leaves an encoder as good as new, whatever it was before. */
  predicate EncoderComesOut(s: Stream, config: Config, overhead': nat) {
    if config.codec.None? || config.codec.value.format !in s.settings.factory then s.encoder.None?
    else if NeedsNewEncoder(s.config, config) then
      overhead' != 0 || s.overheadPerPacket == 0 || config.codec.value.cngPayloadType.Some?
    else
      && s.encoder.Some?
      && ComesOutAsNew(s.encoder.value, s.settings.factory[config.codec.value.format], s.config, config,
                       s.overheadPerPacket, overhead')
  }

  /** The same for an encoder that was as good as new. */
  predicate EncoderFollows(s: Stream, config: Config, overhead': nat) {
    if config.codec.None? then true
    else if NeedsNewEncoder(s.config, config) then
      if config.codec.value.format in s.settings.factory then
        overhead' != 0 || s.overheadPerPacket == 0 || config.codec.value.cngPayloadType.Some?
      else s.encoder.None?
    else s.encoder.Some? ==> InPlaceFollows(s.encoder.value, s.config, config, s.overheadPerPacket, overhead')
  }

  /** The codec and overhead steps on a stream in any state. */
  lemma EncoderStageComesOutExactlyWhen(m: Machine, config: Config, overhead': nat, dev: Shared.DeviceAnswer)
    requires ReconfigureSendCodec(m, config, dev).Ok?
    ensures var e := ReconfigureSendCodec(m, config, dev).value.stream.encoder;
            var e' := if overhead' != m.stream.overheadPerPacket then DeliverOverhead(e, overhead') else e;
            Indistinguishable(e', FreshEncoder(m.stream.settings, config, overhead')) <==>
            EncoderComesOut(m.stream, config, overhead')
  {
    var s := m.stream;
    if config.codec.None? || config.codec.value.format !in s.settings.factory {
    } else if NeedsNewEncoder(s.config, config) {
      NewEncoderFollowsExactlyWhen(s.settings.factory[config.codec.value.format], config, s.overheadPerPacket,
                                   overhead');
    } else {
      LiveEncoderComesOutExactlyWhen(m, config, overhead', dev);
    }
  }

  lemma LiveEncoderComesOutExactlyWhen(m: Machine, config: Config, overhead': nat, dev: Shared.DeviceAnswer)
    requires config.codec.Some? && config.codec.value.format in m.stream.settings.factory
    requires !NeedsNewEncoder(m.stream.config, config) && ReconfigureSendCodec(m, config, dev).Ok?
    ensures var e := ReconfigureSendCodec(m, config, dev).value.stream.encoder;
            var e' := if overhead' != m.stream.overheadPerPacket then DeliverOverhead(e, overhead') else e;
            Indistinguishable(e', FreshEncoder(m.stream.settings, config, overhead')) <==>
            EncoderComesOut(m.stream, config, overhead')
  {
    var s := m.stream;
    if s.encoder.Some? {
      InPlaceComesOutExactlyWhen(s.encoder.value, s.settings.factory[config.codec.value.format], s.config, config,
                                 s.overheadPerPacket, overhead');
    }
  }

  lemma CurrentEncoderFollowsExactlyWhen(s: Stream, config: Config, overhead': nat)
    requires EncoderCurrent(s)
    requires config.codec.None? ==> s.config.codec.None?
    ensures EncoderComesOut(s, config, overhead') <==> EncoderFollows(s, config, overhead')
  {
    if config.codec.Some? && config.codec.value.format in s.settings.factory && !NeedsNewEncoder(s.config, config) {
      var profile := s.settings.factory[config.codec.value.format];
      LooksNewExactlyWhen(s.encoder.value, profile, s.config.adaptorConfig, s.config.codec.value, s.overheadPerPacket);
      NewOneFollowsExactlyWhen(s.encoder.value, profile, s.config, config, s.overheadPerPacket, overhead');
    }
  }

  /** The observer stage does not touch the encoder. */
  lemma FinalEncoder(m: Machine, config: Config, rtp: nat, dev: Shared.DeviceAnswer)
    requires Invariant(m)
    requires ConfigureStream(m, config, rtp, dev).Ok?
    ensures var s := ReconfigureSendCodec(m, config, dev).value.stream;
            var s' := ConfigureStream(m, config, rtp, dev).value.stream;
            var overhead' := m.stream.transportOverhead + rtp;
            && s'.settings == m.stream.settings && s'.config == config && s'.overheadPerPacket == overhead'
            && s'.encoder == (if overhead' != m.stream.overheadPerPacket then DeliverOverhead(s.encoder, overhead')
                              else s.encoder)
  {
    var m1, m3 := Stages(m, config, rtp, dev);
    ObserverStageFrame(m3, config);
  }

  lemma ReconfigureLeavesEncoderCurrentExactlyWhen(m: Machine, config: Config, rtp: nat, dev: Shared.DeviceAnswer)
    requires Invariant(m)
    requires ConfigureStream(m, config, rtp, dev).Ok?
    ensures EncoderCurrent(ConfigureStream(m, config, rtp, dev).value.stream) <==>
            EncoderComesOut(m.stream, config, m.stream.transportOverhead + rtp)
  {
    FinalEncoder(m, config, rtp, dev);
    EncoderStageComesOutExactlyWhen(m, config, m.stream.transportOverhead + rtp, dev);
  }

  /** From a stream whose encoder is as good as new, Reconfigure gives one exactly when the simpler condition holds. */
  lemma ReconfigureKeepsEncoderCurrentExactlyWhen(m: Machine, config: Config, rtp: nat, dev: Shared.DeviceAnswer)
    requires Invariant(m) && EncoderCurrent(m.stream)
    requires ConfigureStream(m, config, rtp, dev).Ok?
    ensures EncoderCurrent(ConfigureStream(m, config, rtp, dev).value.stream) <==>
            EncoderFollows(m.stream, config, m.stream.transportOverhead + rtp)
  {
    ReconfigureLeavesEncoderCurrentExactlyWhen(m, config, rtp, dev);
    CurrentEncoderFollowsExactlyWhen(m.stream, config, m.stream.transportOverhead + rtp);
  }

  /** Once a packet is encoded, the frame lengths picked for the next one count. */
  predicate EncodedIsAsNew(s: Stream) {
    if s.config.codec.None? || s.config.codec.value.format !in s.settings.factory then s.encoder.None?
    else
      && s.encoder.Some?
      && var frames := Core(s.encoder.value).frames;
         IsAsNew(s.encoder.value, Frames(frames.next, frames.next), s.settings.factory[s.config.codec.value.format],
                 s.config.adaptorConfig, s.config.codec.value, s.overheadPerPacket)
  }

  lemma {:induction false} EncodingOnCore(e: Encoder, frames: FrameRange)
    ensures Core(EncodePacket(e)) == EncodePacket(Core(e)) && SameShape(e, EncodePacket(e))
    ensures e.Red? ==> EncodePacket(e).Red? && EncodePacket(e).packetOverhead == e.packetOverhead
    ensures Observable(AdaptFrameLength(e, frames)) == Observable(e)
  {
    if e.Speech? {
    } else {
      EncodingOnCore(e.inner, frames);
    }
  }

  lemma EncodingLeavesEncoderCurrentExactlyWhen(s: Stream, frames: FrameRange)
    ensures EncoderCurrent(Encoded(s)) <==> EncodedIsAsNew(s)
    ensures EncoderCurrent(Adapted(s, frames)) <==> EncoderCurrent(s)
    ensures EncoderCurrent(s) ==> EncoderCurrent(Encoded(s))
  {
    if s.encoder.Some? {
      var e := s.encoder.value;
      EncodingOnCore(e, frames);
      if s.config.codec.Some? && s.config.codec.value.format in s.settings.factory {
        var spec := s.config.codec.value;
        var profile := s.settings.factory[spec.format];
        SameShapeSameLayers(e, EncodePacket(e), spec.cngPayloadType, spec.redPayloadType);
        LooksNewExactlyWhen(e, profile, s.config.adaptorConfig, spec, s.overheadPerPacket);
        LooksNewExactlyWhen(EncodePacket(e), profile, s.config.adaptorConfig, spec, s.overheadPerPacket);
      }
    }
  }

  /** For every call and every state before it. */
  predicate EncoderOutcome(s: Stream, call: Call) {
    match call
    case Reconfigure(config, rtp, _) => EncoderComesOut(s, config, s.transportOverhead + rtp)
    case SetTransportOverhead(bytes, rtp) => OverheadOutcome(s, bytes + rtp)
    case DeliverRtcp(rtp) => OverheadOutcome(s, s.transportOverhead + rtp)
    case Encode => EncodedIsAsNew(s)
    case _ => EncoderCurrent(s)
  }

  /** An unchanged overhead reaches nobody; a changed one as in a Reconfigure to the same configuration. */
  predicate OverheadOutcome(s: Stream, overhead': nat) {
    if overhead' == s.overheadPerPacket then EncoderCurrent(s) else EncoderComesOut(s, s.config, overhead')
  }

  lemma OverheadLeavesEncoderCurrentExactlyWhen(m: Machine, rtp: nat)
    requires RegistrationAgrees(m) && UpdateOverheadPerPacket(m, rtp).Ok?
    ensures EncoderCurrent(UpdateOverheadPerPacket(m, rtp).value.stream) <==>
            OverheadOutcome(m.stream, m.stream.transportOverhead + rtp)
  {
    OverheadUpdateFrame(m, rtp);
    EncoderStageComesOutExactlyWhen(m, m.stream.config, m.stream.transportOverhead + rtp,
                                    Shared.DeviceAnswer(true, true));
  }

  lemma CallLeavesEncoderCurrentExactlyWhen(m: Machine, call: Call)
    requires Invariant(m) && Step(m, call).Ok?
    ensures EncoderCurrent(Step(m, call).value.stream) <==> EncoderOutcome(m.stream, call)
  {
    match call
    case Start(_) =>
    case Stop =>
    case Reconfigure(config, rtp, dev) => ReconfigureLeavesEncoderCurrentExactlyWhen(m, config, rtp, dev);
    case SetTransportOverhead(bytes, rtp) =>
      var m1 := m.(stream := m.stream.(transportOverhead := bytes));
      OverheadLeavesEncoderCurrentExactlyWhen(m1, rtp);
    case DeliverRtcp(rtp) => OverheadLeavesEncoderCurrentExactlyWhen(m, rtp);
    case Adapt(frames) => EncodingLeavesEncoderCurrentExactlyWhen(m.stream, frames);
    case Encode => EncodingLeavesEncoderCurrentExactlyWhen(m.stream, FrameLengths(1, 1));
  }

  /** The other calls change at most the overhead, which reaches the encoder as in a Reconfigure to the same
      configuration; encoding never puts an encoder out of date that was as good as new. */
  lemma OtherCallsKeepEncoderCurrentExactlyWhen(m: Machine, call: Call)
    requires Invariant(m) && EncoderCurrent(m.stream)
    requires Step(m, call).Ok? && !call.Reconfigure?
    ensures var s' := Step(m, call).value.stream;
            EncoderCurrent(s') <==>
            || s'.overheadPerPacket == m.stream.overheadPerPacket
            || EncoderFollows(m.stream, m.stream.config, s'.overheadPerPacket)
  {
    CallLeavesEncoderCurrentExactlyWhen(m, call);
    match call
    case Start(_) =>
    case Stop =>
    case SetTransportOverhead(bytes, rtp) =>
      OverheadUpdateFrame(m.(stream := m.stream.(transportOverhead := bytes)), rtp);
      CurrentEncoderFollowsExactlyWhen(m.stream, m.stream.config, bytes + rtp);
    case DeliverRtcp(rtp) =>
      OverheadUpdateFrame(m, rtp);
      CurrentEncoderFollowsExactlyWhen(m.stream, m.stream.config, m.stream.transportOverhead + rtp);
    case Adapt(frames) =>
    case Encode => EncodingLeavesEncoderCurrentExactlyWhen(m.stream, FrameLengths(1, 1));
  }
}
