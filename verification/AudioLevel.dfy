/** The level meter: the peak of every 11 calls, decaying by a factor of four per update, and the energy it reports. */
module AudioLevels {

  const UPDATE_FREQUENCY := 10
  const WINDOW: nat := UPDATE_FREQUENCY + 1
  const FULL_SCALE := 32767

  type Sample = x: int | -32768 <= x <= 32767
  type Peak = x: int | 0 <= x <= FULL_SCALE

  /** The part of the state that follows the peaks. */
  datatype Meter = Meter(absMax: Peak, count: nat, current: Peak)

  const SILENT := Meter(0, 0, 0)

  datatype Level = Level(meter: Meter, energy: real, duration: real)

  // ---------------------------------------------------------------- one call

  function Max(a: Peak, b: Peak): Peak {
    if a < b then b else a
  }

  function Abs(x: int): nat {
    if x < 0 then -x else x
  }

  /** The largest absolute value, capped to fit 16 bits. */
  function MaxAbs(samples: seq<Sample>): Peak {
    if samples == [] then 0
    else
      var last := Abs(samples[|samples| - 1]);
      Max(MaxAbs(samples[..|samples| - 1]), if last > FULL_SCALE then FULL_SCALE else last)
  }

  function Update(m: Meter, peak: Peak): Meter {
    var absMax := Max(m.absMax, peak);
    if m.count == UPDATE_FREQUENCY then Meter(absMax / 4, 0, absMax) else Meter(absMax, m.count + 1, m.current)
  }

  /** The energy of a signal at this level for this long, relative to full scale. */
  function Energy(current: Peak, duration: real): real {
    var share := current as real / FULL_SCALE as real;
    share * share * duration
  }

  function Compute(l: Level, peak: Peak, duration: real): Level {
    var meter := Update(l.meter, peak);
    Level(meter, l.energy + Energy(meter.current, duration), l.duration + duration)
  }

  /** A sample as far as it counts: -32768 has no positive counterpart of 16 bits. */
  function Magnitude(x: Sample): Peak {
    if x == -32768 then 32767 else if x < 0 then -x else x
  }

  /** The largest magnitude is one of the samples' and exceeded by none; without samples it is zero. */
  lemma {:induction false} MaxAbsIsTheLargestMagnitude(samples: seq<Sample>)
    ensures forall i :: 0 <= i < |samples| ==> Magnitude(samples[i]) <= MaxAbs(samples)
    ensures if samples == [] then MaxAbs(samples) == 0
            else exists i :: 0 <= i < |samples| && Magnitude(samples[i]) == MaxAbs(samples)
  {
    if samples == [] {
    } else {
      var last := |samples| - 1;
      var front := samples[..last];
      MaxAbsIsTheLargestMagnitude(front);
      assert forall i :: 0 <= i < last ==> front[i] == samples[i];
      if Magnitude(samples[last]) < MaxAbs(front) {
        var i :| 0 <= i < |front| && Magnitude(front[i]) == MaxAbs(front);
        assert Magnitude(samples[i]) == MaxAbs(samples);
      } else {
        assert Magnitude(samples[last]) == MaxAbs(samples);
      }
    }
  }

  // ---------------------------------------------------------------- many calls

  function UpdateAll(peaks: seq<Peak>): Meter {
    if peaks == [] then SILENT else Update(UpdateAll(peaks[..|peaks| - 1]), peaks[|peaks| - 1])
  }

  function PeakOf(peaks: seq<Peak>): Peak {
    if peaks == [] then 0 else Max(PeakOf(peaks[..|peaks| - 1]), peaks[|peaks| - 1])
  }

  /** The j-th complete window. */
  function WindowOf(peaks: seq<Peak>, j: nat): seq<Peak>
    requires WINDOW * (j + 1) <= |peaks|
  {
    peaks[WINDOW * j..WINDOW * (j + 1)]
  }

  function WindowPeak(peaks: seq<Peak>, j: nat): Peak
    requires WINDOW * (j + 1) <= |peaks|
  {
    PeakOf(WindowOf(peaks, j))
  }

  /** x shifted right by two bits, k times. */
  function Decayed(x: Peak, k: nat): Peak {
    if k == 0 then x else Decayed(x, k - 1) / 4
  }

  /** What is left, after n windows, of the peak of window j: decayed once per window since. */
  function Remaining(peaks: seq<Peak>, n: nat, j: nat): Peak
    requires WINDOW * n <= |peaks| && j < n
  {
    Decayed(WindowPeak(peaks, j), n - 1 - j)
  }

  function AllRemaining(peaks: seq<Peak>, n: nat): seq<Peak>
    requires WINDOW * n <= |peaks|
  {
    seq(n, j requires 0 <= j < n => Remaining(peaks, n, j))
  }

  /** The largest element, zero if there is none. */
  predicate IsMaximum(v: Peak, s: seq<Peak>) {
    && (forall j :: 0 <= j < |s| ==> s[j] <= v)
    && (if s == [] then v == 0 else v in s)
  }

  lemma {:induction false} PeakIsMaximum(peaks: seq<Peak>)
    ensures forall i :: 0 <= i < |peaks| ==> peaks[i] <= PeakOf(peaks)
    ensures peaks != [] ==> exists i :: 0 <= i < |peaks| && peaks[i] == PeakOf(peaks)
  {
    if peaks == [] {
    } else {
      var front, last := peaks[..|peaks| - 1], peaks[|peaks| - 1];
      PeakIsMaximum(front);
      if front != [] && last <= PeakOf(front) {
        var i :| 0 <= i < |front| && front[i] == PeakOf(front);
        assert peaks[i] == PeakOf(peaks);
      } else {
        assert peaks[|peaks| - 1] == PeakOf(peaks);
      }
    }
  }

  function Quartered(s: seq<Peak>): seq<Peak> {
    seq(|s|, j requires 0 <= j < |s| => s[j] / 4)
  }

  lemma MaximumStep(v: Peak, s: seq<Peak>, w: Peak)
    requires IsMaximum(v, s)
    ensures IsMaximum(Max(v / 4, w), Quartered(s) + [w])
  {
    var s' := Quartered(s) + [w];
    assert s'[|s|] == w;
    if s != [] {
      var j :| 0 <= j < |s| && s[j] == v;
      assert s'[j] == v / 4;
    }
  }

  /** A further window decays what remains and adds its own peak. */
  lemma OneMoreWindow(peaks: seq<Peak>, n: nat)
    requires WINDOW * (n + 1) <= |peaks|
    ensures AllRemaining(peaks, n + 1) == Quartered(AllRemaining(peaks, n)) + [WindowPeak(peaks, n)]
  {
  }

  /** Windows complete so far, and peaks into the present one. */
  function Windows(peaks: seq<Peak>): nat {
    |peaks| / WINDOW
  }

  function Recent(peaks: seq<Peak>): seq<Peak> {
    peaks[WINDOW * Windows(peaks)..]
  }

  /** After any number of peaks the level is the decayed maximum over the complete windows, and the running maximum is
      the larger of the level once more decayed and the peak of the peaks since. */
  ghost predicate ClosedForm(m: Meter, peaks: seq<Peak>) {
    && m.count == |Recent(peaks)|
    && IsMaximum(m.current, AllRemaining(peaks, Windows(peaks)))
    && m.absMax == Max(m.current / 4, PeakOf(Recent(peaks)))
  }

  lemma WindowsOfPrefix(peaks: seq<Peak>, n: nat)
    requires peaks != [] && WINDOW * n <= |peaks| - 1
    ensures AllRemaining(peaks[..|peaks| - 1], n) == AllRemaining(peaks, n)
  {
    var front := peaks[..|peaks| - 1];
    forall j | 0 <= j < n
      ensures Remaining(front, n, j) == Remaining(peaks, n, j)
    {
      assert front[WINDOW * j..WINDOW * (j + 1)] == peaks[WINDOW * j..WINDOW * (j + 1)];
    }
  }

  lemma OneMoreCall(peaks: seq<Peak>)
    requires peaks != []
    ensures var front := peaks[..|peaks| - 1];
            var recent := Recent(front) + [peaks[|peaks| - 1]];
            if |Recent(front)| == UPDATE_FREQUENCY then
              && Windows(peaks) == Windows(front) + 1 && Recent(peaks) == []
              && WindowPeak(peaks, Windows(front)) == PeakOf(recent)
            else Windows(peaks) == Windows(front) && Recent(peaks) == recent
  {
    var front := peaks[..|peaks| - 1];
    var n := Windows(front);
    if |Recent(front)| == UPDATE_FREQUENCY {
      assert peaks[WINDOW * n..WINDOW * (n + 1)] == Recent(front) + [peaks[|peaks| - 1]];
    }
  }

  lemma {:induction false} LevelHasClosedForm(peaks: seq<Peak>)
    ensures ClosedForm(UpdateAll(peaks), peaks)
  {
    if peaks == [] {
    } else {
      LevelHasClosedForm(peaks[..|peaks| - 1]);
      ClosedFormStep(UpdateAll(peaks[..|peaks| - 1]), peaks);
    }
  }

  lemma ClosedFormStep(m: Meter, peaks: seq<Peak>)
    requires peaks != [] && ClosedForm(m, peaks[..|peaks| - 1])
    ensures ClosedForm(Update(m, peaks[|peaks| - 1]), peaks)
  {
    var front, last := peaks[..|peaks| - 1], peaks[|peaks| - 1];
    OneMoreCall(peaks);
    PeakOfOneMore(Recent(front), last);
    WindowsOfPrefix(peaks, Windows(front));
    if m.count == UPDATE_FREQUENCY {
      OneMoreWindow(peaks, Windows(front));
      MaximumStep(m.current, AllRemaining(peaks, Windows(front)), PeakOf(Recent(front) + [last]));
    }
  }

  lemma PeakOfOneMore(peaks: seq<Peak>, c: Peak)
    ensures PeakOf(peaks + [c]) == Max(PeakOf(peaks), c)
  {
    assert (peaks + [c])[..|peaks|] == peaks;
  }

  lemma {:induction false} CountOfCalls(peaks: seq<Peak>)
    ensures UpdateAll(peaks).count == |peaks| % 11
  {
    if peaks == [] {
    } else {
      CountOfCalls(peaks[..|peaks| - 1]);
    }
  }

  /** A window is 11 calls: with every eleventh the level is set to the peak so far, in between it stays. */
  lemma LevelChangesEveryEleventhCall(peaks: seq<Peak>)
    requires peaks != []
    ensures var before := UpdateAll(peaks[..|peaks| - 1]);
            UpdateAll(peaks).current ==
            if |peaks| % 11 == 0 then Max(before.absMax, peaks[|peaks| - 1]) else before.current
  {
    var front := peaks[..|peaks| - 1];
    CountOfCalls(front);
    EleventhCall(|front|);
    OneUpdate(UpdateAll(front), peaks[|peaks| - 1]);
  }

  lemma EleventhCall(n: nat)
    ensures (n + 1) % 11 == 0 <==> n % 11 == 10
  {
  }

  lemma OneUpdate(m: Meter, peak: Peak)
    ensures Update(m, peak).current == if m.count == 10 then Max(m.absMax, peak) else m.current
  {
  }

  // ---------------------------------------------------------------- how long a level lasts

  lemma {:induction false} DecayIsMonotone(x: Peak, y: Peak, k: nat)
    requires x <= y
    ensures Decayed(x, k) <= Decayed(y, k)
  {
    if k > 0 {
      DecayIsMonotone(x, y, k - 1);
    }
  }

  lemma {:induction false} DecayNeverGrows(x: Peak, k: nat, m: nat)
    requires k <= m
    ensures Decayed(x, m) <= Decayed(x, k)
  {
    if k < m {
      DecayNeverGrows(x, k, m - 1);
    }
  }

  lemma FullScaleLastsSevenDecays()
    ensures Decayed(FULL_SCALE, 7) == 1 && Decayed(FULL_SCALE, 8) == 0
  {
    assert Decayed(FULL_SCALE, 1) == 8191 && Decayed(FULL_SCALE, 2) == 2047;
    assert Decayed(FULL_SCALE, 3) == 511 && Decayed(FULL_SCALE, 4) == 127;
    assert Decayed(FULL_SCALE, 5) == 31 && Decayed(FULL_SCALE, 6) == 7;
  }

  lemma EightDecaysSuffice(x: Peak, k: nat)
    ensures 8 <= k ==> Decayed(x, k) == 0
  {
    if 8 <= k {
      FullScaleLastsSevenDecays();
      DecayIsMonotone(x, FULL_SCALE, 8);
      DecayNeverGrows(x, 8, k);
    }
  }

  /** The last m of n windows are silent. */
  predicate SilentAtTheEnd(peaks: seq<Peak>, n: nat, m: nat)
    requires WINDOW * n <= |peaks| && m <= n
  {
    forall j :: n - m <= j < n ==> WindowPeak(peaks, j) == 0
  }

  lemma {:induction false} SilenceDecaysToSilence(k: nat)
    ensures Decayed(0, k) == 0
  {
    if k > 0 {
      SilenceDecaysToSilence(k - 1);
    }
  }

  lemma NothingRemains(peaks: seq<Peak>, n: nat, j: nat)
    requires WINDOW * n <= |peaks| && 8 <= n && SilentAtTheEnd(peaks, n, 8) && j < n
    ensures Remaining(peaks, n, j) == 0
  {
    EightDecaysSuffice(WindowPeak(peaks, j), n - 1 - j);
    SilenceDecaysToSilence(n - 1 - j);
  }

  lemma SomethingRemains(peaks: seq<Peak>, n: nat)
    requires WINDOW * n <= |peaks| && 8 <= n && WindowPeak(peaks, n - 8) == FULL_SCALE
    ensures Remaining(peaks, n, n - 8) == 1
  {
    FullScaleLastsSevenDecays();
  }

  /** The level in terms of single windows. */
  lemma LevelOfWindows(peaks: seq<Peak>, n: nat)
    requires n == Windows(peaks)
    ensures WINDOW * n <= |peaks|
    ensures forall j :: 0 <= j < n ==> Remaining(peaks, n, j) <= UpdateAll(peaks).current
    ensures UpdateAll(peaks).current == 0 ||
            exists j :: 0 <= j < n && Remaining(peaks, n, j) == UpdateAll(peaks).current
  {
    LevelHasClosedForm(peaks);
    MaximumOfRemaining(peaks, n, UpdateAll(peaks).current);
  }

  /** What is left, after n windows, of peak i of window j. */
  function LeftOf(peaks: seq<Peak>, n: nat, j: nat, i: nat): Peak
    requires WINDOW * n <= |peaks| && j < n && i < WINDOW
  {
    Decayed(WindowOf(peaks, j)[i], n - 1 - j)
  }

  /** The peak of a window is the largest of its peaks, and stays so as they decay. */
  lemma LeftOfWindow(peaks: seq<Peak>, n: nat, j: nat) returns (k: nat)
    requires WINDOW * n <= |peaks| && j < n
    ensures forall i :: 0 <= i < WINDOW ==> LeftOf(peaks, n, j, i) <= Remaining(peaks, n, j)
    ensures k < WINDOW && LeftOf(peaks, n, j, k) == Remaining(peaks, n, j)
  {
    var window := WindowOf(peaks, j);
    PeakIsMaximum(window);
    forall i | 0 <= i < WINDOW
      ensures LeftOf(peaks, n, j, i) <= Remaining(peaks, n, j)
    {
      DecayIsMonotone(window[i], WindowPeak(peaks, j), n - 1 - j);
    }
    k :| 0 <= k < |window| && window[k] == PeakOf(window);
  }

  /** The closed form on single peaks: the level is the largest of them, each shifted right by two bits for every window
      completed since its own. */
  lemma LevelIsTheLargestLeft(peaks: seq<Peak>, n: nat)
    requires n == Windows(peaks)
    ensures WINDOW * n <= |peaks|
    ensures forall j, i :: 0 <= j < n && 0 <= i < WINDOW ==> LeftOf(peaks, n, j, i) <= UpdateAll(peaks).current
    ensures UpdateAll(peaks).current == 0 ||
            exists j, i :: 0 <= j < n && 0 <= i < WINDOW && LeftOf(peaks, n, j, i) == UpdateAll(peaks).current
  {
    LevelOfWindows(peaks, n);
    LargestLeft(peaks, n, UpdateAll(peaks).current);
  }

  lemma LargestLeft(peaks: seq<Peak>, n: nat, v: Peak)
    requires WINDOW * n <= |peaks|
    requires forall j :: 0 <= j < n ==> Remaining(peaks, n, j) <= v
    requires v == 0 || exists j :: 0 <= j < n && Remaining(peaks, n, j) == v
    ensures forall j, i :: 0 <= j < n && 0 <= i < WINDOW ==> LeftOf(peaks, n, j, i) <= v
    ensures v == 0 || exists j, i :: 0 <= j < n && 0 <= i < WINDOW && LeftOf(peaks, n, j, i) == v
  {
    forall j, i | 0 <= j < n && 0 <= i < WINDOW
      ensures LeftOf(peaks, n, j, i) <= v
    {
      var k := LeftOfWindow(peaks, n, j);
      assert Remaining(peaks, n, j) <= v;
    }
    if v != 0 {
      var j :| 0 <= j < n && Remaining(peaks, n, j) == v;
      var k := LeftOfWindow(peaks, n, j);
      assert LeftOf(peaks, n, j, k) == v;
    }
  }

  lemma MaximumOfRemaining(peaks: seq<Peak>, n: nat, v: Peak)
    requires WINDOW * n <= |peaks| && IsMaximum(v, AllRemaining(peaks, n))
    ensures forall j :: 0 <= j < n ==> Remaining(peaks, n, j) <= v
    ensures v == 0 || exists j :: 0 <= j < n && Remaining(peaks, n, j) == v
  {
    var all := AllRemaining(peaks, n);
    assert forall j :: 0 <= j < n ==> all[j] == Remaining(peaks, n, j);
    if all != [] {
      var j :| 0 <= j < |all| && all[j] == v;
      assert Remaining(peaks, n, j) == v;
    }
  }

  /** Eight silent windows bring the level down to zero, whatever came before. */
  lemma EightSilentWindowsSuffice(peaks: seq<Peak>)
    requires Windows(peaks) >= 8 && SilentAtTheEnd(peaks, Windows(peaks), 8)
    ensures UpdateAll(peaks).current == 0
  {
    var n, v := Windows(peaks), UpdateAll(peaks).current;
    LevelOfWindows(peaks, n);
    if v != 0 {
      var j :| 0 <= j < n && Remaining(peaks, n, j) == v;
      NothingRemains(peaks, n, j);
    }
  }

  /** Seven do not, after a window at full scale. */
  lemma SevenSilentWindowsDoNotSuffice(peaks: seq<Peak>)
    requires Windows(peaks) >= 8 && WindowPeak(peaks, Windows(peaks) - 8) == FULL_SCALE
    ensures UpdateAll(peaks).current > 0
  {
    var n := Windows(peaks);
    LevelOfWindows(peaks, n);
    SomethingRemains(peaks, n);
  }

  // ---------------------------------------------------------------- energy

  datatype Call = Call(peak: Peak, duration: real)

  function ComputeAll(l: Level, calls: seq<Call>): Level {
    if calls == [] then l
    else
      var last := calls[|calls| - 1];
      Compute(ComputeAll(l, calls[..|calls| - 1]), last.peak, last.duration)
  }

  function PeaksOf(calls: seq<Call>): seq<Peak> {
    seq(|calls|, i requires 0 <= i < |calls| => calls[i].peak)
  }

  /** Energy and duration do not touch the meter, so what is known of it holds for the object's calls. */
  lemma {:induction false} MeterOfCalls(calls: seq<Call>)
    ensures ComputeAll(Level(SILENT, 0.0, 0.0), calls).meter == UpdateAll(PeaksOf(calls))
    ensures ClosedForm(ComputeAll(Level(SILENT, 0.0, 0.0), calls).meter, PeaksOf(calls))
  {
    if calls == [] {
    } else {
      var front := calls[..|calls| - 1];
      MeterOfCalls(front);
      assert PeaksOf(calls)[..|calls| - 1] == PeaksOf(front);
    }
    LevelHasClosedForm(PeaksOf(calls));
  }

  /** The energy of one call is the square of the level, as a share of 32767, times the duration. */
  lemma EnergyOfALevel(level: Peak, d: real)
    ensures Energy(level, d) == (level as real / 32767.0) * (level as real / 32767.0) * d
  {
  }

  /** What the calls contribute, each at the level it leads to. */
  function EnergyOf(calls: seq<Call>): real {
    if calls == [] then 0.0
    else EnergyOf(calls[..|calls| - 1]) + Energy(UpdateAll(PeaksOf(calls)).current, calls[|calls| - 1].duration)
  }

  function DurationOf(calls: seq<Call>): real {
    if calls == [] then 0.0 else DurationOf(calls[..|calls| - 1]) + calls[|calls| - 1].duration
  }

  /** Energy and duration are these sums. */
  lemma {:induction false} EnergyIsTheSum(calls: seq<Call>)
    ensures var l := ComputeAll(Level(SILENT, 0.0, 0.0), calls);
            l.energy == EnergyOf(calls) && l.duration == DurationOf(calls)
  {
    if calls == [] {
    } else {
      EnergyIsTheSum(calls[..|calls| - 1]);
      MeterOfCalls(calls);
    }
  }

  lemma ShareSquared(share: real, d: real)
    requires 0.0 <= share <= 1.0 && 0.0 <= d
    ensures 0.0 <= share * share * d <= d
  {
    Product(share, share);
    Product(share, 1.0 - share);
    Product(share * share, d);
    Product(1.0 - share * share, d);
  }

  lemma Product(a: real, b: real)
    requires 0.0 <= a && 0.0 <= b
    ensures 0.0 <= a * b
  {
  }

  lemma EnergyOfOneCall(current: Peak, d: real)
    requires 0.0 <= d
    ensures 0.0 <= Energy(current, d) <= d
  {
    var share := current as real / FULL_SCALE as real;
    assert 0.0 <= share <= 1.0;
    ShareSquared(share, d);
    assert Energy(current, d) == share * share * d;
  }

  /** The reported energy never exceeds that of a full-scale signal of the same duration. */
  lemma {:induction false} EnergyIsBounded(calls: seq<Call>)
    requires forall i :: 0 <= i < |calls| ==> 0.0 <= calls[i].duration
    ensures var l := ComputeAll(Level(SILENT, 0.0, 0.0), calls);
            0.0 <= l.energy <= l.duration
  {
    if calls == [] {
    } else {
      EnergyIsBounded(calls[..|calls| - 1]);
      var l := ComputeAll(Level(SILENT, 0.0, 0.0), calls);
      EnergyOfOneCall(l.meter.current, calls[|calls| - 1].duration);
    }
  }

  // ---------------------------------------------------------------- the meter as an object

  class AudioLevel {
    var absMax: Peak
    var count: nat
    var currentLevelFullRange: Peak
    var totalEnergy: real
    var totalDuration: real

    function Value(): Level
      reads this
    {
      Level(Meter(absMax, count, currentLevelFullRange), totalEnergy, totalDuration)
    }

    constructor ()
      ensures Value() == Level(SILENT, 0.0, 0.0)
    {
      absMax, count, currentLevelFullRange := 0, 0, 0;
      totalEnergy, totalDuration := 0.0, 0.0;
    }

    method Reset()
      modifies this
      ensures Value() == Level(SILENT, 0.0, 0.0)
    {
      ResetLevelFullRange();
      totalEnergy, totalDuration := 0.0, 0.0;
    }

    method ResetLevelFullRange()
      modifies this
      ensures Value() == Level(SILENT, old(totalEnergy), old(totalDuration))
    {
      absMax, count, currentLevelFullRange := 0, 0, 0;
    }

    static method MaxAbsValueW16(vector: seq<Sample>) returns (maximum: int)
      ensures maximum == MaxAbs(vector)
    {
      maximum := 0;
      for i := 0 to |vector|
        invariant 0 <= maximum <= 32768
        invariant MaxAbs(vector[..i]) == if maximum > FULL_SCALE then FULL_SCALE else maximum
      {
        assert vector[..i + 1][..i] == vector[..i];
        var absolute := Abs(vector[i]);
        if absolute > maximum {
          maximum := absolute;
        }
      }
      assert vector[..|vector|] == vector;
      if maximum > FULL_SCALE {
        maximum := FULL_SCALE;
      }
    }

    method ComputeLevel(muted: bool, samples: seq<Sample>, duration: real)
      modifies this
      ensures Value() == Compute(old(Value()), if muted then 0 else MaxAbs(samples), duration)
    {
      var absValue := 0;
      if !muted {
        absValue := MaxAbsValueW16(samples);
      }
      if absValue > absMax {
        absMax := absValue;
      }
      var updates := count == UPDATE_FREQUENCY;
      count := count + 1;
      if updates {
        currentLevelFullRange := absMax;
        count := 0;
        absMax := absMax / 4;
      }
      totalEnergy := totalEnergy + Energy(currentLevelFullRange, duration);
      totalDuration := totalDuration + duration;
    }
  }
}
