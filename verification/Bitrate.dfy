// The video bitrate controller: it lowers the bitrate on loss or latency, raises it on good
// samples, ignores small changes, and adapts at most once in three seconds. Bitrates are real
// numbers here; the source computes them in floating point.

module Bitrate {
  import opened Basics

  datatype Mode = Game | Desktop

  type FrameRate = n: nat | n == 15 || n == 30 || n == 60 witness 30

  datatype Controller = Controller(mode: Mode, isHost: bool, frameRate: FrameRate, bitrate: real, adaptedAt: int)

  // A sample of the connection: `loss` is None when it is not a finite number.
  datatype Sample = Sample(now: int, loss: Option<real>, latencyMs: Option<real>)

  const STEP: real := 150000.0

  function MinBitrate(mode: Mode): real { if mode.Game? then 2500000.0 else 1200000.0 }

  function MaxBitrate(mode: Mode, frameRate: FrameRate): real {
    Rounded((if mode.Game? then 15000000.0 else 8000000.0) * (frameRate as real / 30.0))
  }

  // Math.round
  function Rounded(x: real): real { (x + 0.5).Floor as real }

  /** It rounds to the nearest whole number, and up from the middle. */
  lemma RoundedIsNearest(x: real)
    ensures x - 0.5 < Rounded(x) <= x + 0.5
  {
  }

  function InitialBitrate(mode: Mode, frameRate: FrameRate): real { Rounded(MaxBitrate(mode, frameRate) * 0.75) }

  function Lowest(c: Controller): real { MinBitrate(c.mode) }

  function Highest(c: Controller): real { MaxBitrate(c.mode, c.frameRate) }

  function Smaller(x: real, y: real): real { if x <= y then x else y }

  function Larger(x: real, y: real): real { if x >= y then x else y }

  function Clamp(value: real, min: real, max: real): real { Smaller(max, Larger(min, value)) }

  function Initial(mode: Mode, isHost: bool, frameRate: FrameRate): Controller {
    Controller(mode, isHost, frameRate, InitialBitrate(mode, frameRate), 0)
  }

  // ----- the steps

  predicate IsBad(s: Sample) {
    s.loss.Some? && (s.loss.value > 5.0 || (s.latencyMs.Some? && s.latencyMs.value > 350.0))
  }

  predicate IsGood(s: Sample) {
    s.loss.Some? && s.loss.value < 1.0 && (s.latencyMs.Some? ==> s.latencyMs.value < 180.0)
  }

  // The guard: a host, a finite loss, and three seconds since the last adaptation.
  predicate Eligible(c: Controller, s: Sample) { c.isHost && s.loss.Some? && s.now - c.adaptedAt >= 3000 }

  function Target(bitrate: real, s: Sample): real
    requires s.loss.Some?
  {
    if IsBad(s) then bitrate * 0.72
    else if s.loss.value >= 2.0 then bitrate * 0.86
    else if IsGood(s) then bitrate * 1.08
    else bitrate
  }

  function Proposed(c: Controller, s: Sample): real
    requires s.loss.Some?
  {
    Clamp(Target(c.bitrate, s), Lowest(c), Highest(c))
  }

  predicate Small(x: real, y: real) { -STEP < x - y < STEP }

  function Adapt(c: Controller, s: Sample): Controller {
    if !Eligible(c, s) || Small(Proposed(c, s), c.bitrate) then c
    else Applied(c.(bitrate := Proposed(c, s), adaptedAt := s.now))
  }

  function Applied(c: Controller): Controller { c.(bitrate := Clamp(c.bitrate, Lowest(c), Highest(c))) }

  function Resettled(c: Controller, frameRate: Option<FrameRate>): Controller {
    var next := if frameRate.Some? then frameRate.value else c.frameRate;
    c.(frameRate := next, bitrate := Smaller(c.bitrate, MaxBitrate(c.mode, next)))
  }

  class BitrateController {
    const mode: Mode
    const isHost: bool
    var currentFrameRate: FrameRate
    var currentVideoBitrate: real
    var lastBitrateAdaptationAt: int

    ghost function State(): Controller
      reads this
    {
      Controller(mode, isHost, currentFrameRate, currentVideoBitrate, lastBitrateAdaptationAt)
    }

    constructor (mode: Mode, isHost: bool, frameRate: Option<FrameRate>)
      ensures State() == Initial(mode, isHost, if frameRate.Some? then frameRate.value else 30)
    {
      this.mode := mode;
      this.isHost := isHost;
      var rate := if frameRate.Some? then frameRate.value else 30;
      currentFrameRate := rate;
      currentVideoBitrate := Rounded(MaxBitrate(mode, rate) * 0.75);
      lastBitrateAdaptationAt := 0;
    }

    method ApplyVideoEncoderParams()
      modifies this
      ensures State() == Applied(old(State()))
    {
      currentVideoBitrate := Clamp(currentVideoBitrate, MinBitrate(mode), MaxBitrate(mode, currentFrameRate));
    }

    method AdaptVideoBitrate(now: int, packetLossPercent: Option<real>, latencyMs: Option<real>)
      modifies this
      ensures State() == Adapt(old(State()), Sample(now, packetLossPercent, latencyMs))
    {
      if !isHost || packetLossPercent.None? {
        return;
      }
      if now - lastBitrateAdaptationAt < 3000 {
        return;
      }
      var loss := packetLossPercent.value;
      var previousBitrate := currentVideoBitrate;
      var highLatency := latencyMs.Some? && latencyMs.value > 350.0;
      var lowLatency := latencyMs.None? || latencyMs.value < 180.0;
      var nextBitrate := previousBitrate;
      if loss > 5.0 || highLatency {
        nextBitrate := previousBitrate * 0.72;
      } else if loss >= 2.0 {
        nextBitrate := previousBitrate * 0.86;
      } else if loss < 1.0 && lowLatency {
        nextBitrate := previousBitrate * 1.08;
      }
      nextBitrate := Clamp(nextBitrate, MinBitrate(mode), MaxBitrate(mode, currentFrameRate));
      if -150000.0 < nextBitrate - previousBitrate < 150000.0 {
        return;
      }
      currentVideoBitrate := nextBitrate;
      lastBitrateAdaptationAt := now;
      ApplyVideoEncoderParams();
    }

    method UpdateStreamSettings(frameRate: Option<FrameRate>)
      modifies this
      ensures State() == Resettled(old(State()), frameRate)
    {
      if frameRate.Some? {
        currentFrameRate := frameRate.value;
      }
      currentVideoBitrate := Smaller(currentVideoBitrate, MaxBitrate(mode, currentFrameRate));
    }
  }

  // ----- bounds over all runs

  datatype Event = Sampled(sample: Sample) | SettingsChanged(frameRate: Option<FrameRate>) | EncoderUpdated

  function Step(c: Controller, e: Event): Controller {
    match e
    case Sampled(s) => Adapt(c, s)
    case SettingsChanged(r) => Resettled(c, r)
    case EncoderUpdated => Applied(c)
  }

  function After(c: Controller, events: seq<Event>): Controller {
    if events == [] then c else Step(After(c, events[..|events| - 1]), events[|events| - 1])
  }

  predicate InBounds(c: Controller) { Lowest(c) <= c.bitrate <= Highest(c) }

  lemma LimitsAreOrdered(mode: Mode, frameRate: FrameRate)
    ensures MinBitrate(mode) <= MaxBitrate(mode, frameRate) * 0.75
  {
    if frameRate == 15 {
    } else if frameRate == 30 {
    } else {
    }
  }

  /** Whatever is sampled and however the stream settings change, the bitrate stays between the
      minimum and the current maximum. */
  lemma {:induction false} AlwaysInBounds(mode: Mode, isHost: bool, frameRate: FrameRate, events: seq<Event>)
    ensures InBounds(After(Initial(mode, isHost, frameRate), events))
    ensures After(Initial(mode, isHost, frameRate), events).mode == mode
  {
    if events == [] {
      LimitsAreOrdered(mode, frameRate);
    } else {
      AlwaysInBounds(mode, isHost, frameRate, events[..|events| - 1]);
      StepInBounds(After(Initial(mode, isHost, frameRate), events[..|events| - 1]), events[|events| - 1]);
    }
  }

  /** In numbers: a game never gets less than 2.5 or more than 0.5 megabits for each frame of a second,
      a desktop never less than 1.2 or more than 8 for every 30 frames. */
  lemma BoundsInNumbers(mode: Mode, isHost: bool, frameRate: FrameRate, events: seq<Event>)
    ensures var c := After(Initial(mode, isHost, frameRate), events);
      if mode.Game? then 2500000.0 <= c.bitrate <= 500000.0 * c.frameRate as real
      else 1200000.0 <= c.bitrate && 30.0 * c.bitrate <= 8000000.0 * c.frameRate as real
  {
    AlwaysInBounds(mode, isHost, frameRate, events);
    HighestInNumbers(mode, After(Initial(mode, isHost, frameRate), events).frameRate);
  }

  lemma HighestInNumbers(mode: Mode, frameRate: FrameRate)
    ensures if mode.Game? then MaxBitrate(mode, frameRate) == 500000.0 * frameRate as real
            else 30.0 * MaxBitrate(mode, frameRate) == 8000000.0 * frameRate as real
  {
    if frameRate == 15 {
    } else if frameRate == 30 {
    } else {
    }
  }

  /** A game starts at 375000 for each frame of a second, a desktop at 200000. */
  lemma StartInNumbers(mode: Mode, isHost: bool, frameRate: FrameRate)
    ensures Initial(mode, isHost, frameRate).bitrate == (if mode.Game? then 375000.0 else 200000.0) * frameRate as real
    ensures Initial(mode, isHost, frameRate).adaptedAt == 0
  {
    if frameRate == 15 {
    } else if frameRate == 30 {
    } else {
    }
  }

  /** New settings never raise the bitrate: it stays as it was where it fits, and is the new maximum
      where it does not. The encoder's update changes nothing. */
  lemma SettingsNeverRaise(c: Controller, frameRate: Option<FrameRate>)
    requires InBounds(c)
    ensures var z := Step(c, SettingsChanged(frameRate));
      z.frameRate == (if frameRate.Some? then frameRate.value else c.frameRate)
      && z.bitrate <= c.bitrate && (z.bitrate == c.bitrate || z.bitrate == Highest(z) < c.bitrate)
    ensures Step(c, EncoderUpdated) == c
  {
  }

  lemma StepInBounds(c: Controller, e: Event)
    requires InBounds(c)
    ensures InBounds(Step(c, e)) && Step(c, e).mode == c.mode
  {
    LimitsAreOrdered(c.mode, Step(c, e).frameRate);
  }

  // ----- sustained conditions

  function Follow(c: Controller, samples: seq<Sample>): Controller {
    if samples == [] then c else Adapt(Follow(c, samples[..|samples| - 1]), samples[|samples| - 1])
  }

  // How many samples got past the guard.
  function Chances(c: Controller, samples: seq<Sample>): nat {
    if samples == [] then 0
    else
      var before := samples[..|samples| - 1];
      Chances(c, before) + if Eligible(Follow(c, before), samples[|samples| - 1]) then 1 else 0
  }

  // The four bands of samples, in numbers; a latency that is not reported is neither high nor too high.
  predicate HighLatency(s: Sample, ms: real) { s.latencyMs.Some? && s.latencyMs.value > ms }

  predicate Heavy(s: Sample) { s.loss.Some? && (s.loss.value > 5.0 || HighLatency(s, 350.0)) }

  predicate Light(s: Sample) { s.loss.Some? && 2.0 <= s.loss.value <= 5.0 && !HighLatency(s, 350.0) }

  predicate Fine(s: Sample) {
    s.loss.Some? && s.loss.value < 1.0 && (s.latencyMs.Some? ==> s.latencyMs.value < 180.0)
  }

  // Between the bands: some loss or some latency, but not much.
  predicate Fair(s: Sample) {
    s.loss.Some? && s.loss.value < 2.0 && !HighLatency(s, 350.0)
    && (s.loss.value >= 1.0 || (s.latencyMs.Some? && s.latencyMs.value >= 180.0))
  }

  predicate AllHeavy(samples: seq<Sample>) { forall i :: 0 <= i < |samples| ==> Heavy(samples[i]) }

  predicate AllLight(samples: seq<Sample>) { forall i :: 0 <= i < |samples| ==> Light(samples[i]) }

  predicate AllLossy(samples: seq<Sample>) { forall i :: 0 <= i < |samples| ==> Heavy(samples[i]) || Light(samples[i]) }

  predicate AllFine(samples: seq<Sample>) { forall i :: 0 <= i < |samples| ==> Fine(samples[i]) }

  /** A sample without a finite loss, or between the bands, changes nothing at all. */
  lemma FairChangesNothing(c: Controller, s: Sample)
    requires InBounds(c) && (Fair(s) || s.loss.None?)
    ensures Adapt(c, s) == c
  {
  }

  lemma EverySampleHasItsBand(s: Sample)
    requires s.loss.Some?
    ensures [Heavy(s), Light(s), Fair(s), Fine(s)]
         in {[true, false, false, false], [false, true, false, false], [false, false, true, false], [false, false, false, true]}
  {
  }

  predicate SameStream(c: Controller, z: Controller) {
    InBounds(z) && z.mode == c.mode && z.frameRate == c.frameRate && z.isHost == c.isHost
  }

  // One lossy sample: below min + 150000 nothing happens; above, the bitrate drops to its share, by
  // 150000 or more, or to the minimum.
  lemma LossySample(c: Controller, s: Sample)
    requires InBounds(c) && (Heavy(s) || Light(s))
    ensures var z := Adapt(c, s);
      SameStream(c, z)
      && (c.bitrate < Lowest(c) + STEP || !Eligible(c, s) ==> z == c)
      && (c.bitrate >= Lowest(c) + STEP && Eligible(c, s) ==>
            z.bitrate <= c.bitrate - STEP
            && z.bitrate == Larger(Lowest(c), if Heavy(s) then c.bitrate * 0.72 else c.bitrate * 0.86))
  {
    LimitsAreOrdered(c.mode, c.frameRate);
  }

  lemma FineSample(c: Controller, s: Sample)
    requires InBounds(c) && Fine(s)
    ensures var z := Adapt(c, s);
      SameStream(c, z)
      && (c.bitrate < 1875000.0 || c.bitrate > Highest(c) - STEP || !Eligible(c, s) ==> z == c)
      && (1875000.0 <= c.bitrate <= Highest(c) - STEP && Eligible(c, s) ==>
            z.bitrate >= c.bitrate + STEP && z.bitrate == Smaller(Highest(c), c.bitrate * 1.08))
  {
    LimitsAreOrdered(c.mode, c.frameRate);
  }

  /** Under sustained loss of two percent or more, or latency above 350 ms, the bitrate never rises,
      every chance taken while it is at least min + 150000 lowers it by 150000 or more, and once it
      is below it stays. */
  lemma {:induction false} LossDescends(c: Controller, samples: seq<Sample>)
    requires InBounds(c) && AllLossy(samples)
    ensures var z := Follow(c, samples);
      SameStream(c, z) && z.bitrate <= c.bitrate
      && (z.bitrate < Lowest(c) + STEP || c.bitrate - z.bitrate >= Chances(c, samples) as real * STEP)
      && (c.bitrate < Lowest(c) + STEP ==> z == c)
  {
    if samples != [] {
      var before := samples[..|samples| - 1];
      LossDescends(c, before);
      LossySample(Follow(c, before), samples[|samples| - 1]);
    }
  }

  /** So (max - min) / 150000 chances suffice, however far apart they are. */
  lemma SustainedLossReachesBottom(c: Controller, samples: seq<Sample>, more: seq<Sample>)
    requires InBounds(c) && AllLossy(samples) && AllLossy(more)
    requires Chances(c, samples) as real * STEP >= Highest(c) - Lowest(c)
    ensures Lowest(c) <= Follow(c, samples).bitrate < Lowest(c) + STEP
    ensures Follow(Follow(c, samples), more) == Follow(c, samples)
  {
    LossDescends(c, samples);
    LossDescends(Follow(c, samples), more);
  }

  // b times the k-th power of f.
  function Scaled(b: real, f: real, k: nat): real { if k == 0 then b else Scaled(b, f, k - 1) * f }

  lemma {:induction false} ScaledIsPositive(b: real, f: real, k: nat)
    requires b > 0.0 && f > 0.0
    ensures Scaled(b, f, k) > 0.0
  {
    if k > 0 {
      ScaledIsPositive(b, f, k - 1);
    }
  }

  // The bitrate is x, or more than x but near the bottom.
  predicate Descended(c: Controller, z: Controller, x: real) {
    SameStream(c, z) && (z.bitrate == x || x < z.bitrate < Lowest(c) + STEP)
  }

  lemma DescentStep(c: Controller, z: Controller, s: Sample, heavy: bool, x: real)
    requires InBounds(c) && Descended(c, z, x) && (if heavy then Heavy(s) else Light(s)) && x > 0.0
    ensures Descended(c, Adapt(z, s), if !Eligible(z, s) then x else if heavy then x * 0.72 else x * 0.86)
  {
    LossySample(z, s);
  }

  /** Sustained loss above five percent, or latency above 350 ms, leaves 72 percent at every chance;
      loss from two to five percent leaves 86: exactly that until the bottom is near. */
  lemma {:induction false} LossIsGeometric(c: Controller, samples: seq<Sample>, heavy: bool)
    requires InBounds(c) && (if heavy then AllHeavy(samples) else AllLight(samples))
    ensures Descended(c, Follow(c, samples), Scaled(c.bitrate, if heavy then 0.72 else 0.86, Chances(c, samples)))
  {
    if samples != [] {
      var before, f := samples[..|samples| - 1], if heavy then 0.72 else 0.86;
      LossIsGeometric(c, before, heavy);
      ScaledIsPositive(c.bitrate, f, Chances(c, before));
      DescentStep(c, Follow(c, before), samples[|samples| - 1], heavy, Scaled(c.bitrate, f, Chances(c, before)));
    }
  }

  /** Under sustained good samples a bitrate of at least 1875000 rises by 150000 or more at every
      chance until it is above max - 150000; a lower one never rises. */
  lemma {:induction false} GoodAscends(c: Controller, samples: seq<Sample>)
    requires InBounds(c) && AllFine(samples)
    ensures var z := Follow(c, samples);
      SameStream(c, z) && z.bitrate >= c.bitrate
      && (c.bitrate < 1875000.0 || c.bitrate > Highest(c) - STEP ==> z == c)
      && (c.bitrate >= 1875000.0 ==>
            z.bitrate > Highest(c) - STEP || z.bitrate - c.bitrate >= Chances(c, samples) as real * STEP)
  {
    if samples != [] {
      var before := samples[..|samples| - 1];
      GoodAscends(c, before);
      FineSample(Follow(c, before), samples[|samples| - 1]);
    }
  }

  lemma SustainedGoodReachesTop(c: Controller, samples: seq<Sample>)
    requires InBounds(c) && AllFine(samples)
    requires Chances(c, samples) as real * STEP >= Highest(c) - Lowest(c)
    ensures Follow(c, samples).bitrate > Highest(c) - STEP <==> c.bitrate >= 1875000.0 || c.bitrate > Highest(c) - STEP
  {
    GoodAscends(c, samples);
  }

  // The bitrate is x, or less than x but near the top.
  predicate Ascended(c: Controller, z: Controller, x: real) {
    SameStream(c, z) && z.bitrate >= 1875000.0 && (z.bitrate == x || Highest(c) - STEP < z.bitrate < x)
  }

  lemma AscentStep(c: Controller, z: Controller, s: Sample, x: real)
    requires InBounds(c) && Ascended(c, z, x) && Fine(s)
    ensures Ascended(c, Adapt(z, s), if Eligible(z, s) then x * 1.08 else x)
  {
    FineSample(z, s);
  }

  /** From 1875000 on, every chance of sustained good samples adds eight percent: exactly that until
      the top is near. */
  lemma {:induction false} GoodIsGeometric(c: Controller, samples: seq<Sample>)
    requires InBounds(c) && AllFine(samples) && c.bitrate >= 1875000.0
    ensures Ascended(c, Follow(c, samples), Scaled(c.bitrate, 1.08, Chances(c, samples)))
  {
    if samples != [] {
      var before := samples[..|samples| - 1];
      GoodIsGeometric(c, before);
      AscentStep(c, Follow(c, before), samples[|samples| - 1], Scaled(c.bitrate, 1.08, Chances(c, before)));
    }
  }

  // ----- which samples count

  // The samples of a host that come at least three seconds after each other, and after t.
  predicate Spaced(samples: seq<Sample>, t: int) {
    (forall i :: 0 <= i < |samples| ==> samples[i].loss.Some? && samples[i].now >= t + 3000)
    && forall i, j :: 0 <= i < j < |samples| ==> samples[j].now >= samples[i].now + 3000
  }

  lemma {:induction false} AdaptedBySamples(c: Controller, samples: seq<Sample>)
    ensures var z := Follow(c, samples);
      z.isHost == c.isHost && (z.adaptedAt == c.adaptedAt || exists i :: 0 <= i < |samples| && z.adaptedAt == samples[i].now)
  {
    if samples != [] {
      var before, last := samples[..|samples| - 1], |samples| - 1;
      AdaptedBySamples(c, before);
      if Follow(c, samples).adaptedAt != Follow(c, before).adaptedAt {
        assert Follow(c, samples).adaptedAt == samples[last].now;
      } else if i :| 0 <= i < |before| && Follow(c, before).adaptedAt == before[i].now {
        assert before[i] == samples[i];
      }
    }
  }

  /** Every one of a host's samples that are three seconds apart is a chance; a viewer has none. */
  lemma {:induction false} SpacedSamplesCount(c: Controller, samples: seq<Sample>)
    requires Spaced(samples, c.adaptedAt)
    ensures Chances(c, samples) == if c.isHost then |samples| else 0
  {
    if samples != [] {
      var before := samples[..|samples| - 1];
      SpacedSamplesCount(c, before);
      AdaptedBySamples(c, before);
    }
  }

  /** So a host under loss of two percent or more, sampled every three seconds, is near the bottom after
      at most (max - min) / 150000 samples. */
  lemma SpacedLossReachesBottom(c: Controller, samples: seq<Sample>)
    requires InBounds(c) && c.isHost && AllLossy(samples) && Spaced(samples, c.adaptedAt)
    requires |samples| as real * STEP >= Highest(c) - Lowest(c)
    ensures Lowest(c) <= Follow(c, samples).bitrate < Lowest(c) + STEP
  {
    SpacedSamplesCount(c, samples);
    SustainedLossReachesBottom(c, samples, []);
  }

  /** In numbers: below 2.65 megabits for a game, below 1.35 for a desktop; and no lower than 2.5 and 1.2,
      which is where one more heavy loss leads from there if it is far enough. */
  lemma BottomInNumbers(c: Controller, samples: seq<Sample>)
    requires InBounds(c) && c.isHost && AllLossy(samples) && Spaced(samples, c.adaptedAt)
    requires |samples| as real * STEP >= Highest(c) - Lowest(c)
    ensures var b := Follow(c, samples).bitrate;
      if c.mode.Game? then 2500000.0 <= b < 2650000.0 else 1200000.0 <= b < 1350000.0
  {
    SpacedLossReachesBottom(c, samples);
  }

  // ----- at most one adaptation in three seconds

  predicate Adapts(c: Controller, samples: seq<Sample>, i: nat)
    requires i < |samples|
  {
    Adapt(Follow(c, samples[..i]), samples[i]) != Follow(c, samples[..i])
  }

  lemma {:induction false} AdaptedAtStays(c: Controller, samples: seq<Sample>, j: nat, k: nat)
    requires j < k <= |samples|
    requires forall i :: j < i < k ==> !Adapts(c, samples, i)
    ensures Adapts(c, samples, j) ==> Follow(c, samples[..k]).adaptedAt == samples[j].now
    decreases k
  {
    assert samples[..k][..k - 1] == samples[..k - 1];
    assert Follow(c, samples[..k]) == Adapt(Follow(c, samples[..k - 1]), samples[k - 1]);
    if k - 1 > j {
      AdaptedAtStays(c, samples, j, k - 1);
      assert !Adapts(c, samples, k - 1);
    }
  }

  /** Two adaptations with none between them are at least three seconds apart. */
  lemma AdaptationsAreSpaced(c: Controller, samples: seq<Sample>, j: nat, k: nat)
    requires j < k < |samples| && Adapts(c, samples, j) && Adapts(c, samples, k)
    requires forall i :: j < i < k ==> !Adapts(c, samples, i)
    ensures samples[k].now - samples[j].now >= 3000
  {
    AdaptedAtStays(c, samples, j, k);
  }
}
