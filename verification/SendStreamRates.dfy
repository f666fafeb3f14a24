/** Bitrate constraints of a send stream stay ordered, so clamping an allocation to them is meaningful. */
module SendStreamRates {
  import opened Basics
  import opened AudioEncoders
  import opened SendStream

  /** Dividing by a longer duration never gives a larger rate. */
  lemma RateIsAntitone(bytes: nat, shorter: nat, longer: nat)
    requires 0 < shorter <= longer
    ensures Rate(bytes, longer) <= Rate(bytes, shorter)
  {
    var x := bytes * 8_000_000;
    var q := x / longer;
    MulMonotone(shorter, longer, q);
    DivAtLeast(x, shorter, q);
  }

  lemma DivAtLeast(x: nat, d: nat, q: nat)
    requires 0 < d && q * d <= x
    ensures q <= x / d
  {
    var r := x / d;
    assert x == r * d + x % d;
    MulMonotone(r + 1, q, d);
  }

  lemma MulMonotone(a: nat, b: nat, d: nat)
    ensures a <= b ==> a * d <= b * d
  {
    if a <= b {
      assert b * d == a * d + (b - a) * d;
    }
  }

  /** The bitrates for which constraints exist. */
  predicate RatesSound(settings: Settings, config: Config, bitrates: Option<RateRange>) {
    && 0 <= config.minBitrateBps
    && 0 <= config.maxBitrateBps
    && var c := PayloadRates(settings, config, bitrates);
       c.min <= c.max
  }

  /** An allocator entry exists exactly for sound bitrates and, unless the fixed overhead is used, a known frame
      range; its bounds are then in order and no lower than the payload bitrates they are made from. */
  lemma EntryExists(settings: Settings, config: Config, overhead: nat,
                    frames: Option<FrameRange>, bitrates: Option<RateRange>)
    ensures Entry(settings, config, overhead, frames, bitrates).Some? <==>
            RatesSound(settings, config, bitrates) && (settings.legacyOverhead || frames.Some?)
    ensures var entry := Entry(settings, config, overhead, frames, bitrates);
            entry.Some? ==>
              var c := PayloadRates(settings, config, bitrates);
              && c.min <= entry.value.minBitrateBps <= entry.value.maxBitrateBps
              && c.max <= entry.value.maxBitrateBps
  {
    if frames.Some? {
      RateIsAntitone(overhead, frames.value.shortest, frames.value.longest);
    }
  }

  /** What a stream can send: payload at a rate of the range, in packets of a length of the range. */
  function TotalRate(payload: nat, overhead: nat, frame: nat): nat
    requires 0 < frame
  {
    payload + Rate(overhead, frame)
  }

  /** Unless the fixed overhead is used, the constraints are the exact bounds of what can be sent, and the priority
      bitrate is the configured one plus the least possible overhead. */
  lemma ConstraintsAreTheTightBounds(settings: Settings, config: Config, overhead: nat, frames: FrameRange,
                                     bitrates: Option<RateRange>, payload: nat, frame: nat)
    requires RatesSound(settings, config, bitrates) && !settings.legacyOverhead
    requires Within(payload, PayloadRates(settings, config, bitrates)) && frames.shortest <= frame <= frames.longest
    ensures var p := PayloadRates(settings, config, bitrates);
            var c := GetMinMaxBitrateConstraints(settings, config, overhead, Some(frames), bitrates);
            && c.Some?
            && Within(TotalRate(payload, overhead, frame), c.value)
            && c.value.min == TotalRate(p.min, overhead, frames.longest)
            && c.value.max == TotalRate(p.max, overhead, frames.shortest)
    ensures settings.enablePriorityBitrate && settings.priorityBitrateRaw.None? ==>
              && PriorityBitrate(settings, overhead, Some(frames)) <=
                 TotalRate(settings.priorityBitrate, overhead, frame)
              && PriorityBitrate(settings, overhead, Some(frames)) ==
                 TotalRate(settings.priorityBitrate, overhead, frames.longest)
  {
    RateIsAntitone(overhead, frames.shortest, frame);
    RateIsAntitone(overhead, frame, frames.longest);
  }

  /** RelativeUnit::Clamped */
  function Clamped(x: nat, lo: nat, hi: nat): nat {
    var capped := if hi < x then hi else x;
    if lo < capped then capped else lo
  }

  /** The rates OnBitrateUpdated passes to the channel. */
  function Forwarded(s: Stream, target: nat, stable: nat): (nat, nat) {
    var c := GetMinMaxBitrateConstraints(s.settings, s.config, s.overheadPerPacket, s.frameLengths, s.bitrateRange);
    if c.None? then (target, stable)
    else (Clamped(target, c.value.min, c.value.max), Clamped(stable, c.value.min, c.value.max))
  }

  predicate Within(x: nat, c: RateRange) {
    c.min <= x <= c.max
  }

  /** Whatever the allocator hands out, the encoder is asked for rates inside the constraints, unchanged when they
      already lie inside; without constraints nothing is altered. */
  lemma ForwardedRatesLieWithinConstraints(s: Stream, target: nat, stable: nat)
    ensures var c :=
              GetMinMaxBitrateConstraints(s.settings, s.config, s.overheadPerPacket, s.frameLengths, s.bitrateRange);
            var (t, st) := Forwarded(s, target, stable);
            if c.None? then t == target && st == stable
            else
              && Within(t, c.value) && (Within(target, c.value) ==> t == target)
              && (target < c.value.min ==> t == c.value.min) && (target > c.value.max ==> t == c.value.max)
              && Within(st, c.value) && (Within(stable, c.value) ==> st == stable)
              && (stable < c.value.min ==> st == c.value.min) && (stable > c.value.max ==> st == c.value.max)
              && (target <= stable ==> t <= st)
  {
    EntryExists(s.settings, s.config, s.overheadPerPacket, s.frameLengths, s.bitrateRange);
  }
}
