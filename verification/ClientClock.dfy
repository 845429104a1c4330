/**
 The client's clock: an offset to server time estimated from four timestamps,
 and the buffered lag, prediction lead and dilations steered by measurements.
 Times and frame measures are real numbers.
 */
module ClientClocks {
  datatype Config = Config(
    fixedDt: real,
    lag: nat, lagCapacity: nat, autoLag: bool, lagMin: nat, lagJitter: real, smoothing: real,
    bufferedMin: real, bufferedMax: real, bufferedGain: real,
    autoLead: bool, lead: nat, inputCapacity: nat, leadMin: nat, leadSafety: nat, leadJitter: real,
    predictedMin: real, predictedMax: real, predictedGain: real,
    warmup: nat, fastRecovery: bool, minGap: nat, maxSteps: nat)
  {
    /** What `validate_client_clock_config` accepts. */
    predicate Valid() {
      && fixedDt > 0.0 && lag < lagCapacity && lagMin < lagCapacity && lagJitter >= 0.0 && 0.0 < smoothing <= 1.0
      && 0.0 < bufferedMin <= 1.0 <= bufferedMax && bufferedGain >= 0.0
      && lead < inputCapacity && leadMin < inputCapacity && leadJitter >= 0.0
      && 0.0 < predictedMin <= 1.0 <= predictedMax && predictedGain >= 0.0 && minGap > 0
    }
  }

  datatype Clock = Clock(
    offset: real, hasSample: bool, bootstrapped: bool, localTime: real,
    lag: nat, samples: nat, warmup: nat, latency: real, jitter: real,
    desiredLag: nat, targetLag: nat, desiredLead: nat, targetLead: nat, currentLead: nat,
    bufferedDilation: real, predictedDilation: real,
    bufferedFrame: nat, predictedFrame: nat, accumulator: real, dropped: nat)

  function NewClock(cfg: Config): Clock {
    Clock(0.0, false, false, 0.0, cfg.lag, 0, 0, 0.0, 0.0, cfg.lag, cfg.lag, cfg.lead, cfg.lead, cfg.lead, 1.0, 1.0, 0, 0, 0.0, 0)
  }

  lemma ValidBounds(cfg: Config)
    requires cfg.Valid()
    ensures cfg.fixedDt > 0.0 && cfg.lagMin < cfg.lagCapacity
  {
  }

  // ------------------------------------------------------------ arithmetic

  function Abs(x: real): (a: real)
    ensures a >= 0.0 && (a == x || a == -x)
  {
    if x < 0.0 then -x else x
  }

  function AtLeast(x: real, low: real): real {
    if x < low then low else x
  }

  function Clamp(x: real, low: real, high: real): real {
    if AtLeast(x, low) > high then high else AtLeast(x, low)
  }

  function Later(x: nat, y: nat): nat {
    if x < y then y else x
  }

  /** `rounded_frame_count`. */
  function Rounded(frames: real): nat {
    if frames <= 0.0 then 0 else (frames + 0.5).Floor
  }

  /** `ceil(max(0, frames))`. */
  function CeilPositive(frames: real): nat {
    if frames <= 0.0 then 0 else -((-frames).Floor)
  }

  function WholePart(x: real): nat {
    if x <= 0.0 then 0 else x.Floor
  }

  /** `dilation_from_error`. */
  function DilationFromError(error: real, gain: real, low: real, high: real): real {
    if Abs(error) <= 0.25 then 1.0 else Clamp(1.0 + Times(error, gain), low, high)
  }

  function ClampTarget(frames: nat, low: nat, capacity: nat): nat
    requires low < capacity
  {
    var raised := if frames < low then low else frames;
    if raised > capacity - 1 then capacity - 1 else raised
  }

  /** The products of the estimates, named so that proofs can leave them closed. */
  function Times(x: real, y: real): real {
    x * y
  }

  lemma TimesDifference(x: real, y: real, s: real)
    ensures Times(x - y, s) == Times(x, s) - Times(y, s)
  {
  }

  lemma TimesSign(x: real, s: real)
    requires s >= 0.0
    ensures x >= 0.0 ==> Times(x, s) >= 0.0
    ensures x > 0.0 && s > 0.0 ==> Times(x, s) > 0.0
  {
  }

  lemma TimesZero(s: real)
    ensures Times(0.0, s) == 0.0 && Times(1.0, s) == s && Times(s, 1.0) == s
  {
  }

  lemma TimesSwap(x: real, y: real)
    ensures Times(x, y) == Times(y, x)
  {
  }

  /** Part of a number lies between zero and the number. */
  lemma Part(x: real, s: real)
    requires 0.0 <= s <= 1.0
    ensures x >= 0.0 ==> 0.0 <= Times(x, s) <= x
    ensures x <= 0.0 ==> x <= Times(x, s) <= 0.0
  {
    hide Times;
    TimesZero(x);
    TimesSwap(s, x);
    TimesSwap(1.0 - s, x);
    TimesDifference(1.0, s, x);
    var y := if x >= 0.0 then x else -x;
    TimesZero(s);
    TimesDifference(0.0, x, s);
    TimesDifference(0.0, x, 1.0 - s);
    TimesZero(1.0 - s);
    TimesSign(y, s);
    TimesSign(y, 1.0 - s);
  }

  // ---------------------------------------------------------- time estimate

  function EstimatedFrame(cfg: Config, c: Clock): real
    requires cfg.fixedDt > 0.0
  {
    (c.localTime + c.offset) / cfg.fixedDt
  }

  /** The time `steps` fixed steps take. */
  function Elapsed(steps: int, fixedDt: real): real {
    Times(steps as real, fixedDt)
  }

  function SampleOffset(sent: real, received: real, answered: real, heard: real): real {
    ((received - sent) + (answered - heard)) * 0.5
  }

  function RoundTrip(sent: real, received: real, answered: real, heard: real): real {
    (heard - sent) - (answered - received)
  }

  /** Half a round trip, in frames. */
  function HalfTrip(roundTrip: real, fixedDt: real): real
    requires fixedDt > 0.0
  {
    roundTrip * 0.5 / fixedDt
  }

  lemma HalfTripSign(roundTrip: real, fixedDt: real)
    requires fixedDt > 0.0 && roundTrip >= 0.0
    ensures HalfTrip(roundTrip, fixedDt) >= 0.0
  {
  }

  function WantedLag(cfg: Config, latency: real, jitter: real): nat
    requires cfg.Valid()
  {
    ClampTarget(CeilPositive(latency + Times(cfg.lagJitter, jitter)), cfg.lagMin, cfg.lagCapacity)
  }

  function WantedLead(cfg: Config, latency: real, jitter: real): nat
    requires cfg.Valid()
  {
    ClampTarget(CeilPositive(2.0 * (latency + Times(cfg.leadJitter, jitter)) + cfg.leadSafety as real), cfg.leadMin, cfg.inputCapacity)
  }

  /** `compute_auto_targets`. */
  function ComputeTargets(cfg: Config, c: Clock): Clock
    requires cfg.Valid()
  {
    var lag, lead := WantedLag(cfg, c.latency, c.jitter), WantedLead(cfg, c.latency, c.jitter);
    c.(desiredLag := lag, targetLag := lag, desiredLead := lead, targetLead := lead)
  }

  /** An estimate moved part of the way towards a sample. */
  function Smoothed(estimate: real, sample: real, s: real): real {
    estimate + Times(sample - estimate, s)
  }

  /** A ping sample smoothed into latency and jitter, and counted. */
  function Measured(cfg: Config, c: Clock, sample: real): Clock {
    c.(latency := if c.samples == 0 then sample else Smoothed(c.latency, sample, cfg.smoothing),
       jitter := if c.samples == 0 then 0.0 else Smoothed(c.jitter, Abs(sample - c.latency), cfg.smoothing),
       samples := c.samples + 1, warmup := if c.warmup < cfg.warmup then c.warmup + 1 else c.warmup)
  }

  /** `record_ping_sample`. */
  function RecordPing(cfg: Config, c: Clock, sample: real): Clock
    requires cfg.Valid()
  {
    var measured := Measured(cfg, c, sample);
    if measured.warmup >= cfg.warmup then ComputeTargets(cfg, measured) else measured
  }

  function BufferedFor(cfg: Config, c: Clock): nat
    requires cfg.fixedDt > 0.0
  {
    WholePart(EstimatedFrame(cfg, c) - c.lag as real)
  }

  /** `reconfigure_frames_from_estimated_server_time`. */
  function Reconfigure(cfg: Config, c: Clock): Clock
    requires cfg.fixedDt > 0.0
  {
    var lead := if cfg.autoLead then c.targetLead else cfg.lead;
    c.(bufferedFrame := BufferedFor(cfg, c), predictedFrame := Rounded(EstimatedFrame(cfg, c)) + lead, accumulator := 0.0, currentLead := lead)
  }

  function Threshold(cfg: Config, c: Clock): real {
    c.latency + c.jitter * 2.0 + cfg.minGap as real
  }

  /** `record_time_sync_sample`; impossible timestamps are ignored. */
  function RecordTimeSync(cfg: Config, c: Clock, sent: real, received: real, answered: real, heard: real): Clock
    requires cfg.Valid()
  {
    var roundTrip := RoundTrip(sent, received, answered, heard);
    if heard < sent || answered < received || roundTrip < 0.0 then c
    else
      var sample := SampleOffset(sent, received, answered, heard);
      var delta := Abs((heard + sample) / cfg.fixedDt - EstimatedFrame(cfg, c));
      var c1 := RecordPing(cfg, c, HalfTrip(roundTrip, cfg.fixedDt));
      var far := c1.bootstrapped && delta >= Threshold(cfg, c1);
      var c2 := c1.(hasSample := true,
                    offset := if !c1.hasSample || far then sample else Smoothed(c1.offset, sample, cfg.smoothing));
      if far then Reconfigure(cfg, c2) else c2
  }

  /** `maybe_bootstrap_from_first_server_update`. */
  function Bootstrap(cfg: Config, c: Clock, serverFrame: nat, seedLead: bool, completeWarmup: bool): Clock
    requires cfg.Valid()
  {
    if c.bootstrapped then c
    else
      var anchor := !c.hasSample || Abs(EstimatedFrame(cfg, c) - serverFrame as real) >= Threshold(cfg, c);
      var c1 := if anchor then c.(offset := Elapsed(serverFrame, cfg.fixedDt) - c.localTime) else c;
      c1.(bufferedFrame := BufferedFor(cfg, c1), predictedFrame := if seedLead then serverFrame + cfg.lead else serverFrame,
          accumulator := 0.0, currentLead := cfg.lead,
          warmup := if completeWarmup || !seedLead then cfg.warmup else c1.warmup, bootstrapped := true)
  }

  /** Times as a message meets them on its way to the server and back, on clocks `trueOffset` apart. */
  predicate Causal(sent: real, received: real, answered: real, heard: real, trueOffset: real) {
    sent + trueOffset <= received <= answered <= heard + trueOffset
  }

  /** A sample is off the true offset by at most half its round trip. */
  lemma SampleError(sent: real, received: real, answered: real, heard: real, trueOffset: real)
    requires Causal(sent, received, answered, heard, trueOffset)
    ensures 0.0 <= RoundTrip(sent, received, answered, heard) <= heard - sent
    ensures Abs(SampleOffset(sent, received, answered, heard) - trueOffset) <= RoundTrip(sent, received, answered, heard) * 0.5
  {
  }

  /** Moving an estimate part of the way towards a sample keeps a bound both meet. */
  lemma BlendBound(estimate: real, sample: real, s: real, truth: real, bound: real)
    requires 0.0 <= s <= 1.0 && Abs(estimate - truth) <= bound && Abs(sample - truth) <= bound
    ensures Abs(Smoothed(estimate, sample, s) - truth) <= bound
  {
    hide Times;
    Part(sample - estimate, s);
  }

  /** Once there is an estimate, it is within `bound` of the truth. */
  predicate Close(c: Clock, trueOffset: real, bound: real) {
    c.hasSample || c.bootstrapped ==> Abs(c.offset - trueOffset) <= bound
  }

  /** A time sample keeps a bound that the estimate and half the sample's round trip meet. */
  lemma TimeSyncClose(cfg: Config, c: Clock, sent: real, received: real, answered: real, heard: real, trueOffset: real, bound: real)
    requires cfg.Valid() && Causal(sent, received, answered, heard, trueOffset) && Close(c, trueOffset, bound)
    requires RoundTrip(sent, received, answered, heard) * 0.5 <= bound
    ensures var c' := RecordTimeSync(cfg, c, sent, received, answered, heard); c'.hasSample && Close(c', trueOffset, bound)
  {
    hide RecordPing, EstimatedFrame, Threshold, Smoothed, HalfTrip, Reconfigure, Abs, SampleOffset;
    SampleError(sent, received, answered, heard, trueOffset);
    PingKeepsOffset(cfg, c, HalfTrip(RoundTrip(sent, received, answered, heard), cfg.fixedDt));
    ReconfigureKeepsOffset(cfg);
    if c.hasSample {
      BlendBound(c.offset, SampleOffset(sent, received, answered, heard), cfg.smoothing, trueOffset, bound);
    }
  }

  lemma ReconfigureKeepsOffset(cfg: Config)
    requires cfg.fixedDt > 0.0
    ensures forall c :: var c' := Reconfigure(cfg, c); c'.offset == c.offset && c'.hasSample == c.hasSample && c'.bootstrapped == c.bootstrapped
  {
    hide BufferedFor, EstimatedFrame, Rounded;
  }

  lemma PingKeepsOffset(cfg: Config, c: Clock, sample: real)
    requires cfg.Valid()
    ensures var c' := RecordPing(cfg, c, sample); c'.offset == c.offset && c'.hasSample == c.hasSample && c'.bootstrapped == c.bootstrapped
  {
    hide WantedLag, WantedLead, Smoothed, Abs, Config.Valid;
  }

  // ---------------------------------------------------------- lag and lead

  function ObservedDownstream(serverFrame: nat, observed: real): (d: real)
    ensures d >= 0.0
  {
    if observed > serverFrame as real then observed - serverFrame as real else 0.0
  }

  function Gap(x: nat, y: nat): nat {
    if x < y then y - x else x - y
  }

  /** `fast_recovery_step`. */
  function FastRecoveryStep(cfg: Config, current: nat, target: nat): nat {
    if current == target then current
    else if !cfg.fastRecovery || Gap(current, target) < cfg.minGap then (if current < target then current + 1 else current - 1)
    else target
  }

  function ExpectedDelay(cfg: Config, warmup: nat, latency: real, jitter: real): real {
    if warmup >= cfg.warmup then latency + Times(cfg.leadJitter, jitter) else cfg.lead as real
  }

  /** `prediction_target_from_observed`. */
  function PredictionTarget(cfg: Config, c: Clock, downstream: real): nat
    requires cfg.Valid()
  {
    var ping := ExpectedDelay(cfg, c.warmup, c.latency, c.jitter);
    ClampTarget(CeilPositive(downstream + AtLeast(ping, downstream) + cfg.leadSafety as real), cfg.leadMin, cfg.inputCapacity)
  }

  /** The lag's target as `record_buffered_timing` updates it. */
  function LagTarget(cfg: Config, c: Clock, downstream: real): nat
    requires cfg.Valid()
  {
    var seen := ClampTarget(Rounded(downstream), cfg.lagMin, cfg.lagCapacity);
    if !cfg.autoLag then c.targetLag
    else if cfg.fastRecovery && downstream > 0.0 then Later(c.desiredLag, seen)
    else if c.warmup >= cfg.warmup && downstream > 0.0 then Later(c.targetLag, seen)
    else c.desiredLag
  }

  /** One step of the lag towards its target, when the measurements agree with the direction. */
  function SteeredLag(cfg: Config, lag: nat, target: nat, downstream: real, measured: real): nat {
    var large := cfg.fastRecovery && Gap(lag, target) >= cfg.minGap;
    var up := lag < target && (large || downstream > 0.0 || measured >= lag as real);
    var down := lag > target && (large || measured <= lag as real);
    if up || down then FastRecoveryStep(cfg, lag, target) else lag
  }

  /** `record_buffered_timing`. */
  function RecordBuffered(cfg: Config, c: Clock, serverFrame: nat, observedServer: real, observedBuffered: real, hasBuffered: bool): Clock
    requires cfg.Valid()
  {
    var downstream := ObservedDownstream(serverFrame, observedServer);
    var target := LagTarget(cfg, c, downstream);
    var measured := AtLeast(serverFrame as real - observedBuffered, 0.0);
    if hasBuffered && cfg.autoLag && (c.warmup >= cfg.warmup || (cfg.fastRecovery && downstream > 0.0)) then
      c.(targetLag := target, lag := SteeredLag(cfg, c.lag, target, downstream, measured),
         bufferedDilation := DilationFromError(measured - target as real, cfg.bufferedGain, cfg.bufferedMin, cfg.bufferedMax))
    else c.(targetLag := target, bufferedDilation := 1.0)
  }

  function AvailableLead(serverFrame: nat, lastInput: nat): nat {
    if lastInput >= serverFrame then lastInput - serverFrame else 0
  }

  /** The lead's target as `record_prediction_timing` updates it. */
  function LeadTarget(cfg: Config, c: Clock, downstream: real): nat
    requires cfg.Valid()
  {
    if !cfg.autoLead || !cfg.fastRecovery then c.targetLead
    else if downstream > 0.0 then Later(c.desiredLead, PredictionTarget(cfg, c, downstream))
    else c.desiredLead
  }

  /** `record_prediction_timing`. */
  function RecordPrediction(cfg: Config, c: Clock, serverFrame: nat, downstream: real, observedPredicted: real, lastInput: nat): Clock
    requires cfg.Valid()
  {
    var measured := AtLeast(observedPredicted - serverFrame as real, 0.0);
    var fixed := c.warmup >= cfg.warmup && !cfg.autoLead;
    var target := if fixed then cfg.lead else LeadTarget(cfg, c, downstream);
    c.(currentLead := Later(Rounded(measured), AvailableLead(serverFrame, lastInput)),
       desiredLead := if fixed then cfg.lead else c.desiredLead, targetLead := target,
       predictedDilation := if fixed || c.warmup < cfg.warmup then 1.0
                            else DilationFromError(target as real - measured, cfg.predictedGain, cfg.predictedMin, cfg.predictedMax))
  }

  /** `record_server_update`: the new clock, and the frame to fill inputs up to, or zero. */
  function RecordServerUpdate(cfg: Config, c: Clock, serverFrame: nat, observedServer: real, observedBuffered: real,
                              observedPredicted: real, hasBuffered: bool, lastInput: nat): (Clock, nat)
    requires cfg.Valid()
  {
    if !c.bootstrapped then (c, 0)
    else
      var downstream := ObservedDownstream(serverFrame, observedServer);
      var c1 := RecordPrediction(cfg, RecordBuffered(cfg, c, serverFrame, observedServer, observedBuffered, hasBuffered),
                                 serverFrame, downstream, observedPredicted, lastInput);
      if !cfg.fastRecovery || !cfg.autoLead || downstream <= 0.0 then (c1, 0)
      else
        var target := PredictionTarget(cfg, c1, downstream);
        if downstream < cfg.minGap as real || target <= AvailableLead(serverFrame, lastInput) then (c1, 0) else (c1, serverFrame + target)
  }

  /** `record_prediction_lead`. */
  function RecordLead(cfg: Config, c: Clock, serverFrame: nat, predictedFrame: nat): Clock {
    var measured := if predictedFrame >= serverFrame then predictedFrame - serverFrame else 0;
    var target := if cfg.autoLead then c.targetLead else cfg.lead;
    c.(currentLead := measured,
       predictedDilation := if !cfg.autoLead || c.warmup < cfg.warmup
                            then (if measured == target then 1.0 else c.predictedDilation)
                            else Clamp(1.0 + Times(target as real - measured as real, cfg.predictedGain), cfg.predictedMin, cfg.predictedMax))
  }

  /** `set_buffered_frame_lag`. */
  function SetLag(cfg: Config, c: Clock, frames: nat): (Config, Clock, bool) {
    if frames >= cfg.lagCapacity then (cfg, c, false)
    else (cfg.(lag := frames), c.(lag := frames, desiredLag := frames, targetLag := frames, bufferedDilation := 1.0), true)
  }

  // ---------------------------------------------------------- fixed steps

  /** `consume_client_fixed_steps`: steps taken, steps dropped, and what stays in the accumulator. */
  function FixedSteps(accumulator: real, dt: real, fixedDt: real, maxSteps: nat): (nat, nat, real)
    requires fixedDt > 0.0
  {
    var total := accumulator + dt;
    if total < fixedDt then (0, 0, total)
    else
      var whole := (total / fixedDt).Floor;
      var remainder := total - Elapsed(whole, fixedDt);
      var taken := if maxSteps == 0 || whole <= maxSteps then whole else maxSteps;
      (taken, whole - taken, if remainder > 0.0 then remainder else 0.0)
  }

  /** No time is lost or made up: what came in is the steps taken, the steps dropped and the rest. */
  lemma StepsConserveTime(accumulator: real, dt: real, fixedDt: real, maxSteps: nat)
    requires fixedDt > 0.0 && accumulator >= 0.0 && dt >= 0.0
    ensures var (taken, dropped, left) := FixedSteps(accumulator, dt, fixedDt, maxSteps);
            && 0.0 <= left < fixedDt && (maxSteps > 0 ==> taken <= maxSteps)
            && accumulator + dt == Elapsed(taken + dropped, fixedDt) + left
  {
    var total := accumulator + dt;
    if total >= fixedDt {
      hide Elapsed;
      var q := total / fixedDt;
      assert Times(q, fixedDt) == total;
      WholeSteps(total, fixedDt, q, q.Floor);
    }
  }

  lemma WholeSteps(total: real, fixedDt: real, q: real, whole: int)
    requires fixedDt > 0.0 && total >= fixedDt && Times(q, fixedDt) == total && whole == q.Floor
    ensures whole >= 1 && Elapsed(whole, fixedDt) <= total < Elapsed(whole, fixedDt) + fixedDt
  {
    hide Times;
    FloorTimes(q, whole as real, fixedDt);
    FloorTimes(q, 1.0, fixedDt);
  }

  lemma FloorTimes(q: real, w: real, s: real)
    requires s > 0.0
    ensures w <= q ==> Times(w, s) <= Times(q, s)
    ensures q < w + 1.0 ==> Times(q, s) < Times(w, s) + s
    ensures Times(q, s) >= Times(w, s) ==> q >= w
    ensures Times(1.0, s) == s
  {
    hide Times;
    TimesZero(s);
    TimesDifference(q, w, s);
    TimesDifference(w, q, s);
    TimesDifference(1.0, q - w, s);
    TimesSign(q - w, s);
    TimesSign(w - q, s);
    TimesSign(1.0 - (q - w), s);
  }

  function Dilated(dt: real, dilation: real): real {
    Times(dt, dilation)
  }

  /** The frames after the local time has moved: the buffered one follows the estimate, the predicted one fixed steps. */
  function AdvanceFrames(cfg: Config, c: Clock, dt: real): Clock
    requires cfg.fixedDt > 0.0
  {
    var (taken, dropped, left) := FixedSteps(c.accumulator, Dilated(dt, c.predictedDilation), cfg.fixedDt, cfg.maxSteps);
    c.(bufferedFrame := BufferedFor(cfg, c), predictedFrame := c.predictedFrame + taken, dropped := c.dropped + dropped, accumulator := left)
  }

  /** `advance`. */
  function Advance(cfg: Config, c: Clock, dt: real): Clock
    requires cfg.Valid()
  {
    if dt < 0.0 then c
    else
      var c1 := c.(localTime := c.localTime + dt);
      if !c.bootstrapped then c1
      else
        AdvanceFrames(cfg, c1, dt)
  }

  // ---------------------------------------------------------- all runs

  datatype Step =
    | TimeSync(sent: real, received: real, answered: real, heard: real)
    | FirstUpdate(first: nat, seedLead: bool, completeWarmup: bool)
    | Update(serverFrame: nat, observedServer: real, observedBuffered: real, observedPredicted: real, hasBuffered: bool, lastInput: nat)
    | Lead(leadServer: nat, leadPredicted: nat)
    | Lag(frames: nat)
    | Tick(dt: real)

  function Next(cfg: Config, c: Clock, step: Step): (Config, Clock)
    requires cfg.Valid()
  {
    match step
    case TimeSync(sent, received, answered, heard) => (cfg, RecordTimeSync(cfg, c, sent, received, answered, heard))
    case FirstUpdate(first, seedLead, completeWarmup) => (cfg, Bootstrap(cfg, c, first, seedLead, completeWarmup))
    case Update(f, server, buffered, predicted, has, last) => (cfg, RecordServerUpdate(cfg, c, f, server, buffered, predicted, has, last).0)
    case Lead(f, p) => (cfg, RecordLead(cfg, c, f, p))
    case Lag(frames) => var (cfg', c', _) := SetLag(cfg, c, frames); (cfg', c')
    case Tick(dt) => (cfg, Advance(cfg, c, dt))
  }

  /** Lags and leads inside their buffers, dilations inside their bounds, the step accumulator short of a step. */
  predicate Bounded(cfg: Config, c: Clock) {
    && c.lag < cfg.lagCapacity && c.desiredLag < cfg.lagCapacity && c.targetLag < cfg.lagCapacity
    && c.desiredLead < cfg.inputCapacity && c.targetLead < cfg.inputCapacity
    && cfg.bufferedMin <= c.bufferedDilation <= cfg.bufferedMax && cfg.predictedMin <= c.predictedDilation <= cfg.predictedMax
    && 0.0 <= c.accumulator < cfg.fixedDt && c.latency >= 0.0 && c.jitter >= 0.0
  }

  lemma BlendPositive(x: real, y: real, s: real)
    requires x >= 0.0 && y >= 0.0 && 0.0 <= s <= 1.0
    ensures Smoothed(x, y, s) >= 0.0
  {
    hide Times;
    Part(y - x, s);
  }

  lemma PingBounded(cfg: Config, c: Clock, sample: real)
    requires cfg.Valid() && Bounded(cfg, c) && sample >= 0.0
    ensures Bounded(cfg, RecordPing(cfg, c, sample))
  {
    BlendPositive(c.latency, sample, cfg.smoothing);
    BlendPositive(c.jitter, Abs(sample - c.latency), cfg.smoothing);
    hide CeilPositive;
  }

  lemma TimeSyncBounded(cfg: Config, c: Clock, sent: real, received: real, answered: real, heard: real)
    requires cfg.Valid() && Bounded(cfg, c)
    ensures Bounded(cfg, RecordTimeSync(cfg, c, sent, received, answered, heard))
  {
    var roundTrip := RoundTrip(sent, received, answered, heard);
    if roundTrip >= 0.0 {
      HalfTripSign(roundTrip, cfg.fixedDt);
      PingBounded(cfg, c, HalfTrip(roundTrip, cfg.fixedDt));
      hide RecordPing, SampleOffset, EstimatedFrame, Threshold, BufferedFor, Rounded, HalfTrip, Smoothed;
    }
  }

  lemma DilationBounded(error: real, gain: real, low: real, high: real)
    requires low <= 1.0 <= high
    ensures low <= DilationFromError(error, gain, low, high) <= high
    ensures low <= Clamp(1.0 + Times(error, gain), low, high) <= high
  {
  }

  /** The lag moves towards its target, never away from it and never past it. */
  predicate Approaches(lag: nat, lag': nat, target: nat) {
    if lag <= target then lag <= lag' <= target else target <= lag' <= lag
  }

  lemma BufferedBounded(cfg: Config, c: Clock, f: nat, server: real, buffered: real, has: bool)
    requires cfg.Valid() && Bounded(cfg, c)
    ensures var c' := RecordBuffered(cfg, c, f, server, buffered, has); Bounded(cfg, c') && Approaches(c.lag, c'.lag, c'.targetLag)
  {
    hide Rounded, CeilPositive, DilationFromError, Clamp;
    var downstream := ObservedDownstream(f, server);
    DilationBounded(AtLeast(f as real - buffered, 0.0) - LagTarget(cfg, c, downstream) as real, cfg.bufferedGain, cfg.bufferedMin, cfg.bufferedMax);
  }

  lemma PredictionBounded(cfg: Config, c: Clock, f: nat, downstream: real, predicted: real, last: nat)
    requires cfg.Valid() && Bounded(cfg, c)
    ensures var c' := RecordPrediction(cfg, c, f, downstream, predicted, last); Bounded(cfg, c') && c'.lag == c.lag && c'.targetLag == c.targetLag
  {
    hide Rounded, CeilPositive, DilationFromError, Clamp;
    var c' := RecordPrediction(cfg, c, f, downstream, predicted, last);
    DilationBounded(c'.targetLead as real - AtLeast(predicted - f as real, 0.0), cfg.predictedGain, cfg.predictedMin, cfg.predictedMax);
  }

  lemma UpdateBounded(cfg: Config, c: Clock, f: nat, server: real, buffered: real, predicted: real, has: bool, last: nat)
    requires cfg.Valid() && Bounded(cfg, c)
    ensures var (c', prefill) := RecordServerUpdate(cfg, c, f, server, buffered, predicted, has, last);
            && Bounded(cfg, c') && Approaches(c.lag, c'.lag, c'.targetLag)
            && (prefill != 0 ==> last < prefill && f < prefill < f + cfg.inputCapacity)
  {
    hide RecordBuffered, RecordPrediction, CeilPositive, Bounded;
    BufferedBounded(cfg, c, f, server, buffered, has);
    PredictionBounded(cfg, RecordBuffered(cfg, c, f, server, buffered, has), f, ObservedDownstream(f, server), predicted, last);
  }

  lemma StepBounded(cfg: Config, c: Clock, step: Step)
    requires cfg.Valid() && Bounded(cfg, c)
    ensures var (cfg', c') := Next(cfg, c, step);
            cfg'.Valid() && cfg' == cfg.(lag := cfg'.lag) && Bounded(cfg', c')
  {
    hide RecordTimeSync, RecordServerUpdate, FixedSteps, Rounded, BufferedFor, EstimatedFrame, Threshold, Clamp;
    match step
    case TimeSync(sent, received, answered, heard) => TimeSyncBounded(cfg, c, sent, received, answered, heard);
    case FirstUpdate(_, _, _) =>
    case Update(f, server, buffered, predicted, has, last) => UpdateBounded(cfg, c, f, server, buffered, predicted, has, last);
    case Lead(f, p) => LeadBounded(cfg, c, f, p);
    case Lag(_) =>
    case Tick(dt) => TickBounded(cfg, c, dt);
  }

  lemma TickBounded(cfg: Config, c: Clock, dt: real)
    requires cfg.Valid() && Bounded(cfg, c)
    ensures Bounded(cfg, Advance(cfg, c, dt))
  {
    hide FixedSteps, BufferedFor;
    if dt >= 0.0 && c.bootstrapped {
      TimesSwap(dt, c.predictedDilation);
      TimesSign(c.predictedDilation, dt);
      StepsConserveTime(c.accumulator, Dilated(dt, c.predictedDilation), cfg.fixedDt, cfg.maxSteps);
      hide Dilated;
    }
  }

  lemma LeadBounded(cfg: Config, c: Clock, serverFrame: nat, predictedFrame: nat)
    requires cfg.Valid() && Bounded(cfg, c)
    ensures Bounded(cfg, RecordLead(cfg, c, serverFrame, predictedFrame))
  {
    var measured := if predictedFrame >= serverFrame then predictedFrame - serverFrame else 0;
    var target := if cfg.autoLead then c.targetLead else cfg.lead;
    DilationBounded(target as real - measured as real, cfg.predictedGain, cfg.predictedMin, cfg.predictedMax);
  }

  function Run(cfg: Config, steps: seq<Step>): (r: (Config, Clock))
    requires cfg.Valid()
    ensures r.0.Valid() && Bounded(r.0, r.1)
  {
    if steps == [] then (cfg, NewClock(cfg))
    else
      var (cfg', c) := Run(cfg, steps[..|steps| - 1]);
      StepBounded(cfg', c, steps[|steps| - 1]);
      Next(cfg', c, steps[|steps| - 1])
  }

  /**
   The main result on the steering: in every run the lag stays below its
   buffer's capacity and an update moves it towards its target without passing
   it, both dilations stay within their configured bounds, and a frame the
   clock asks to fill inputs up to is later than the last recorded input and
   less than one input buffer past the server's frame.
   */
  lemma ClockStaysBounded(cfg: Config, steps: seq<Step>, f: nat, server: real, buffered: real, predicted: real, has: bool, last: nat)
    requires cfg.Valid()
    ensures var (cfg', c) := Run(cfg, steps);
            var (c', prefill) := RecordServerUpdate(cfg', c, f, server, buffered, predicted, has, last);
            && c.lag < cfg'.lagCapacity && c'.lag < cfg'.lagCapacity && Approaches(c.lag, c'.lag, c'.targetLag)
            && cfg'.bufferedMin <= c'.bufferedDilation <= cfg'.bufferedMax && cfg'.predictedMin <= c'.predictedDilation <= cfg'.predictedMax
            && (prefill != 0 ==> last < prefill && f < prefill < f + cfg'.inputCapacity)
  {
    hide Run, RecordServerUpdate;
    var (cfg', c) := Run(cfg, steps);
    UpdateBounded(cfg', c, f, server, buffered, predicted, has, last);
  }

  /** The step tells the truth to within `bound`: samples of messages that took that long, a first frame that recent. */
  predicate Truthful(cfg: Config, c: Clock, step: Step, trueOffset: real, bound: real) {
    match step
    case TimeSync(sent, received, answered, heard) =>
      Causal(sent, received, answered, heard, trueOffset) && RoundTrip(sent, received, answered, heard) * 0.5 <= bound
    case FirstUpdate(first, _, _) => c.bootstrapped || Abs(Elapsed(first, cfg.fixedDt) - (c.localTime + trueOffset)) <= bound
    case _ => true
  }

  lemma FirstUpdateClose(cfg: Config, c: Clock, first: nat, seedLead: bool, completeWarmup: bool, trueOffset: real, bound: real)
    requires cfg.Valid() && Close(c, trueOffset, bound) && Truthful(cfg, c, FirstUpdate(first, seedLead, completeWarmup), trueOffset, bound)
    ensures var c' := Bootstrap(cfg, c, first, seedLead, completeWarmup); c'.hasSample == c.hasSample && Close(c', trueOffset, bound)
  {
    hide BufferedFor, EstimatedFrame, Threshold, Elapsed;
  }

  lemma UpdateKeepsOffset(cfg: Config, c: Clock, f: nat, server: real, buffered: real, predicted: real, has: bool, last: nat)
    requires cfg.Valid()
    ensures var c' := RecordServerUpdate(cfg, c, f, server, buffered, predicted, has, last).0;
            c'.offset == c.offset && c'.hasSample == c.hasSample && c'.bootstrapped == c.bootstrapped
  {
    hide LagTarget, DilationFromError, FastRecoveryStep, PredictionTarget, Rounded, AtLeast, ObservedDownstream, Config.Valid;
  }

  lemma StepClose(cfg: Config, c: Clock, step: Step, trueOffset: real, bound: real)
    requires cfg.Valid() && Close(c, trueOffset, bound) && Truthful(cfg, c, step, trueOffset, bound)
    ensures var c' := Next(cfg, c, step).1; (c'.hasSample <==> c.hasSample || step.TimeSync?) && Close(c', trueOffset, bound)
  {
    hide RecordTimeSync, Bootstrap, RecordServerUpdate, FixedSteps, Clamp, Abs, BufferedFor, Causal, RoundTrip, Config.Valid;
    match step
    case TimeSync(sent, received, answered, heard) => TimeSyncClose(cfg, c, sent, received, answered, heard, trueOffset, bound);
    case FirstUpdate(first, seedLead, completeWarmup) => FirstUpdateClose(cfg, c, first, seedLead, completeWarmup, trueOffset, bound);
    case Update(f, server, buffered, predicted, has, last) => UpdateKeepsOffset(cfg, c, f, server, buffered, predicted, has, last);
    case _ =>
  }

  predicate TruthfulRun(cfg: Config, steps: seq<Step>, trueOffset: real, bound: real)
    requires cfg.Valid()
  {
    steps == [] ||
    var (cfg', c) := Run(cfg, steps[..|steps| - 1]);
    TruthfulRun(cfg, steps[..|steps| - 1], trueOffset, bound) && Truthful(cfg', c, steps[|steps| - 1], trueOffset, bound)
  }

  lemma LastStep(cfg: Config, steps: seq<Step>, trueOffset: real, bound: real)
    requires cfg.Valid() && steps != [] && TruthfulRun(cfg, steps, trueOffset, bound)
    ensures var (cfg', c) := Run(cfg, steps[..|steps| - 1]);
            && cfg'.Valid() && TruthfulRun(cfg, steps[..|steps| - 1], trueOffset, bound)
            && Truthful(cfg', c, steps[|steps| - 1], trueOffset, bound) && Run(cfg, steps) == Next(cfg', c, steps[|steps| - 1])
  {
    hide Next, Truthful, Bounded, Config.Valid;
  }

  lemma {:induction false} RunClose(cfg: Config, steps: seq<Step>, trueOffset: real, bound: real)
    requires cfg.Valid() && TruthfulRun(cfg, steps, trueOffset, bound)
    ensures Close(Run(cfg, steps).1, trueOffset, bound)
    ensures Run(cfg, steps).1.hasSample <==> exists step <- steps :: step.TimeSync?
  {
    if steps == [] {
      assert Run(cfg, steps).1 == NewClock(cfg);
    } else {
      hide Run, TruthfulRun, Next, Truthful, Close, Config.Valid;
      var init, last := steps[..|steps| - 1], steps[|steps| - 1];
      LastStep(cfg, steps, trueOffset, bound);
      RunClose(cfg, init, trueOffset, bound);
      StepClose(Run(cfg, init).0, Run(cfg, init).1, last, trueOffset, bound);
      OneMore(init, last);
      assert init + [last] == steps;
    }
  }

  lemma OneMore(init: seq<Step>, last: Step)
    ensures (exists step <- init + [last] :: step.TimeSync?) <==> last.TimeSync? || exists step <- init :: step.TimeSync?
  {
    forall step <- init + [last] ensures step in init || step == last {
    }
  }

  /**
   The main result on the offset: in every run of samples, updates and ticks,
   if half of each sample's round trip and the age of the first update are at
   most `bound`, the estimate is within `bound` of the truth from the first
   sample or update on.
   */
  lemma OffsetStaysClose(cfg: Config, steps: seq<Step>, trueOffset: real, bound: real)
    requires cfg.Valid() && TruthfulRun(cfg, steps, trueOffset, bound)
    ensures var c := Run(cfg, steps).1;
            && (c.hasSample <==> exists step <- steps :: step.TimeSync?)
            && (c.hasSample || c.bootstrapped ==> Abs(c.offset - trueOffset) <= bound)
  {
    hide Run, TruthfulRun;
    RunClose(cfg, steps, trueOffset, bound);
  }

  /** The clock object, field by field; `Model` is the value its specification is about. */
  class ReplicationClientClock {
    var config: Config
    var serverTimeOffset: real
    var hasTimeSyncSample: bool
    var bootstrapped: bool
    var localTime: real
    var bufferedFrameLag: nat
    var sampleCount: nat
    var warmupSamples: nat
    var latencyFrames: real
    var jitterFrames: real
    var desiredLag: nat
    var targetLag: nat
    var desiredLead: nat
    var targetLead: nat
    var currentLead: nat
    var bufferedDilation: real
    var predictedDilation: real
    var bufferedFrame: nat
    var predictedFrame: nat
    var predictedAccumulator: real
    var droppedInputFrames: nat

    function Model(): Clock
      reads this
    {
      Clock(serverTimeOffset, hasTimeSyncSample, bootstrapped, localTime, bufferedFrameLag, sampleCount, warmupSamples, latencyFrames,
            jitterFrames, desiredLag, targetLag, desiredLead, targetLead, currentLead, bufferedDilation, predictedDilation,
            bufferedFrame, predictedFrame, predictedAccumulator, droppedInputFrames)
    }

    constructor (config: Config)
      requires config.Valid()
      ensures this.config == config && Model() == NewClock(config) && Bounded(config, Model())
    {
      this.config := config;
      serverTimeOffset, hasTimeSyncSample, bootstrapped, localTime := 0.0, false, false, 0.0;
      bufferedFrameLag, sampleCount, warmupSamples, latencyFrames, jitterFrames := config.lag, 0, 0, 0.0, 0.0;
      desiredLag, targetLag, desiredLead, targetLead, currentLead := config.lag, config.lag, config.lead, config.lead, config.lead;
      bufferedDilation, predictedDilation := 1.0, 1.0;
      bufferedFrame, predictedFrame, predictedAccumulator, droppedInputFrames := 0, 0, 0.0, 0;
    }

    method Measure(sample: real)
      modifies `sampleCount, `warmupSamples, `latencyFrames, `jitterFrames
      ensures Model() == Measured(config, old(Model()), sample)
    {
      hide Smoothed, Abs;
      ghost var before := Model();
      var latency := if sampleCount == 0 then sample else Smoothed(latencyFrames, sample, config.smoothing);
      var jitter := if sampleCount == 0 then 0.0 else Smoothed(jitterFrames, Abs(sample - latencyFrames), config.smoothing);
      var count, warmed := sampleCount + 1, if warmupSamples < config.warmup then warmupSamples + 1 else warmupSamples;
      latencyFrames, jitterFrames, sampleCount, warmupSamples := latency, jitter, count, warmed;
      assert Model() == before.(latency := latency, jitter := jitter, samples := count, warmup := warmed);
    }

    /** `record_ping_sample`: latency and jitter never go negative, and the targets stay inside their buffers. */
    method RecordPingSample(sample: real)
      requires config.Valid()
      modifies `sampleCount, `warmupSamples, `latencyFrames, `jitterFrames, `desiredLag, `targetLag, `desiredLead, `targetLead
      ensures Model() == RecordPing(config, old(Model()), sample)
      ensures sample >= 0.0 && old(Bounded(config, Model())) ==> Bounded(config, Model())
    {
      hide Measured, ComputeTargets, Bounded, Config.Valid;
      if sample >= 0.0 && Bounded(config, Model()) {
        PingBounded(config, Model(), sample);
      }
      Measure(sample);
      if warmupSamples >= config.warmup {
        ComputeAutoTargets();
      }
    }

    method ComputeAutoTargets()
      requires config.Valid()
      modifies `desiredLag, `targetLag, `desiredLead, `targetLead
      ensures Model() == ComputeTargets(config, old(Model()))
    {
      hide WantedLag, WantedLead, Config.Valid;
      ghost var before := Model();
      var lag, lead := WantedLag(config, latencyFrames, jitterFrames), WantedLead(config, latencyFrames, jitterFrames);
      desiredLag, targetLag, desiredLead, targetLead := lag, lag, lead, lead;
      assert Model() == before.(desiredLag := lag, targetLag := lag, desiredLead := lead, targetLead := lead);
    }

    method ReconfigureFrames()
      requires config.fixedDt > 0.0
      modifies `bufferedFrame, `predictedFrame, `predictedAccumulator, `currentLead
      ensures Model() == Reconfigure(config, old(Model()))
    {
      hide BufferedFor, EstimatedFrame, Rounded;
      ghost var before := Model();
      var lead := if config.autoLead then targetLead else config.lead;
      var buffered, predicted := BufferedFor(config, Model()), Rounded(EstimatedFrame(config, Model())) + lead;
      bufferedFrame, predictedFrame, predictedAccumulator, currentLead := buffered, predicted, 0.0, lead;
      assert Model() == before.(bufferedFrame := buffered, predictedFrame := predicted, accumulator := 0.0, currentLead := lead);
    }

    method RecordTimeSyncSample(sent: real, received: real, answered: real, heard: real)
      requires config.Valid() && Bounded(config, Model())
      modifies this
      ensures config == old(config) && Bounded(config, Model())
      ensures Model() == RecordTimeSync(config, old(Model()), sent, received, answered, heard)
    {
      hide RecordPing, EstimatedFrame, Reconfigure, SampleOffset, Threshold, Bounded, Smoothed;
      TimeSyncBounded(config, Model(), sent, received, answered, heard);
      var roundTrip := RoundTrip(sent, received, answered, heard);
      if heard < sent || answered < received || roundTrip < 0.0 {
        return;
      }
      var sample := SampleOffset(sent, received, answered, heard);
      var delta := Abs((heard + sample) / config.fixedDt - EstimatedFrame(config, Model()));
      RecordPingSample(HalfTrip(roundTrip, config.fixedDt));
      var far := bootstrapped && delta >= Threshold(config, Model());
      if !hasTimeSyncSample {
        serverTimeOffset, hasTimeSyncSample := sample, true;
      } else if far {
        serverTimeOffset := sample;
      } else {
        serverTimeOffset := Smoothed(serverTimeOffset, sample, config.smoothing);
      }
      if far {
        ReconfigureFrames();
      }
    }

    /** `record_buffered_timing`: the lag stays below capacity and moves towards its target, never past it. */
    method RecordBufferedTiming(serverFrame: nat, observedServer: real, observedBuffered: real, hasBuffered: bool)
      requires config.Valid() && Bounded(config, Model())
      modifies `targetLag, `bufferedFrameLag, `bufferedDilation
      ensures Model() == RecordBuffered(config, old(Model()), serverFrame, observedServer, observedBuffered, hasBuffered)
      ensures Bounded(config, Model()) && Approaches(old(bufferedFrameLag), bufferedFrameLag, targetLag)
    {
      hide DilationFromError, Bounded, Approaches, Config.Valid, SteeredLag, LagTarget, AtLeast, ObservedDownstream;
      ghost var before := Model();
      BufferedBounded(config, before, serverFrame, observedServer, observedBuffered, hasBuffered);
      var downstream := ObservedDownstream(serverFrame, observedServer);
      var target := ChooseLagTarget(downstream);
      var lag, dilation := bufferedFrameLag, 1.0;
      if hasBuffered && config.autoLag && (warmupSamples >= config.warmup || (config.fastRecovery && downstream > 0.0)) {
        var measured := AtLeast(serverFrame as real - observedBuffered, 0.0);
        dilation := DilationFromError(measured - target as real, config.bufferedGain, config.bufferedMin, config.bufferedMax);
        lag := SteeredLag(config, lag, target, downstream, measured);
      }
      targetLag, bufferedFrameLag, bufferedDilation := target, lag, dilation;
      assert Model() == before.(targetLag := target, lag := lag, bufferedDilation := dilation);
    }

    method ChooseLagTarget(downstream: real) returns (target: nat)
      requires config.Valid()
      ensures target == LagTarget(config, Model(), downstream)
    {
      hide Rounded;
      target := targetLag;
      if config.autoLag {
        var seen := ClampTarget(Rounded(downstream), config.lagMin, config.lagCapacity);
        target := desiredLag;
        if config.fastRecovery && downstream > 0.0 {
          target := Later(target, seen);
        } else if warmupSamples >= config.warmup && downstream > 0.0 {
          target := Later(targetLag, seen);
        }
      }
    }

    /** `record_prediction_timing`: the lead targets and the dilation stay inside their bounds. */
    method RecordPredictionTiming(serverFrame: nat, downstream: real, observedPredicted: real, lastInput: nat)
      requires config.Valid() && Bounded(config, Model())
      modifies `currentLead, `targetLead, `desiredLead, `predictedDilation
      ensures Model() == RecordPrediction(config, old(Model()), serverFrame, downstream, observedPredicted, lastInput)
      ensures Bounded(config, Model())
    {
      hide DilationFromError, Rounded, LeadTarget, Bounded, Config.Valid, AtLeast;
      ghost var before := Model();
      PredictionBounded(config, before, serverFrame, downstream, observedPredicted, lastInput);
      var measured := AtLeast(observedPredicted - serverFrame as real, 0.0);
      var current := Later(Rounded(measured), AvailableLead(serverFrame, lastInput));
      var target := ChooseLeadTarget(downstream);
      var desired, dilation := desiredLead, 1.0;
      if warmupSamples >= config.warmup {
        if config.autoLead {
          dilation := DilationFromError(target as real - measured, config.predictedGain, config.predictedMin, config.predictedMax);
        } else {
          desired, target := config.lead, config.lead;
        }
      }
      currentLead, desiredLead, targetLead, predictedDilation := current, desired, target, dilation;
      assert Model() == before.(currentLead := current, desiredLead := desired, targetLead := target, predictedDilation := dilation);
    }

    method ChooseLeadTarget(downstream: real) returns (target: nat)
      requires config.Valid()
      ensures target == LeadTarget(config, Model(), downstream)
    {
      hide PredictionTarget, Config.Valid;
      target := targetLead;
      if config.autoLead && config.fastRecovery {
        target := desiredLead;
        if downstream > 0.0 {
          target := Later(desiredLead, PredictionTarget(config, Model(), downstream));
        }
      }
    }

    method RecordServerUpdateAt(serverFrame: nat, observedServer: real, observedBuffered: real, observedPredicted: real,
                                hasBuffered: bool, lastInput: nat) returns (prefill: nat)
      requires config.Valid() && Bounded(config, Model())
      modifies this
      ensures config == old(config) && Bounded(config, Model()) && Approaches(old(bufferedFrameLag), bufferedFrameLag, targetLag)
      ensures (Model(), prefill) == RecordServerUpdate(config, old(Model()), serverFrame, observedServer, observedBuffered,
                                                       observedPredicted, hasBuffered, lastInput)
      ensures prefill != 0 ==> lastInput < prefill && serverFrame < prefill < serverFrame + config.inputCapacity
    {
      hide RecordBuffered, RecordPrediction, PredictionTarget, Bounded, Approaches;
      UpdateBounded(config, Model(), serverFrame, observedServer, observedBuffered, observedPredicted, hasBuffered, lastInput);
      StartsApproached(bufferedFrameLag, targetLag);
      if !bootstrapped {
        return 0;
      }
      var downstream := ObservedDownstream(serverFrame, observedServer);
      RecordBufferedTiming(serverFrame, observedServer, observedBuffered, hasBuffered);
      RecordPredictionTiming(serverFrame, downstream, observedPredicted, lastInput);
      if !config.fastRecovery || !config.autoLead || downstream <= 0.0 {
        return 0;
      }
      var target := PredictionTarget(config, Model(), downstream);
      if downstream < config.minGap as real || target <= AvailableLead(serverFrame, lastInput) {
        return 0;
      }
      return serverFrame + target;
    }

    /** `advance`: local time, the buffered frame from the estimate, and the predicted frame in fixed steps. */
    method AdvanceBy(dt: real)
      requires config.Valid() && Bounded(config, Model())
      modifies `localTime, `bufferedFrame, `predictedFrame, `predictedAccumulator, `droppedInputFrames
      ensures Model() == Advance(config, old(Model()), dt) && Bounded(config, Model())
    {
      hide AdvanceFrames, Bounded, Config.Valid;
      ghost var before := Model();
      ValidBounds(config);
      TickBounded(config, before, dt);
      if dt < 0.0 {
        return;
      }
      var now := localTime + dt;
      localTime := now;
      assert Model() == before.(localTime := now);
      if bootstrapped {
        StepFrames(dt);
      }
    }

    method StepFrames(dt: real)
      requires config.fixedDt > 0.0
      modifies `bufferedFrame, `predictedFrame, `predictedAccumulator, `droppedInputFrames
      ensures Model() == AdvanceFrames(config, old(Model()), dt)
    {
      hide FixedSteps, BufferedFor;
      ghost var before := Model();
      var buffered := BufferedFor(config, Model());
      var (taken, dropped, left) := FixedSteps(predictedAccumulator, Dilated(dt, predictedDilation), config.fixedDt, config.maxSteps);
      var predicted, lost := predictedFrame + taken, droppedInputFrames + dropped;
      bufferedFrame, predictedFrame, droppedInputFrames, predictedAccumulator := buffered, predicted, lost, left;
      assert Model() == before.(bufferedFrame := buffered, predictedFrame := predicted, dropped := lost, accumulator := left);
    }
  }

  lemma StartsApproached(lag: nat, target: nat)
    ensures Approaches(lag, lag, target)
  {
  }
}
