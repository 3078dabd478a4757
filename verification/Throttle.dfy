/**
 `ThrottleController` of lib/throttle.py: a rolling window of response times, four health levels,
 immediate degradation and delayed recovery. Times are real numbers; rounding is not modelled.
 */
module Throttle {
  import opened Basics

  datatype Health = Healthy | Degraded | Stressed | Overloaded

  /** Thresholds, delays and batch factors by level, and the window and recovery settings. */
  datatype ThrottleConfig = ThrottleConfig(
    healthyThreshold: real, degradedThreshold: real, stressedThreshold: real,
    delay: Health -> real, multiplier: Health -> real,
    windowSize: nat, recoveryRequests: nat, minBatchSize: int)

  datatype Stats = Stats(total: nat, healthy: nat, degraded: nat, stressed: nat, overloaded: nat,
                         delayAdded: real, reductions: nat, recoveries: nat,
                         minTime: Option<real>, maxTime: real, sumTime: real)

  datatype State = State(stats: Stats, window: seq<real>, health: Health, fast: nat, delay: real, factor: real)

  function Initial(): State {
    State(Stats(0, 0, 0, 0, 0, 0.0, 0, 0, None, 0.0, 0.0), [], Healthy, 0, 0.0, 1.0)
  }

  function Rank(h: Health): nat {
    match h
    case Healthy => 0
    case Degraded => 1
    case Stressed => 2
    case Overloaded => 3
  }

  function Sum(times: seq<real>): real {
    if times == [] then 0.0 else Sum(times[..|times| - 1]) + times[|times| - 1]
  }

  /** The level of the average over the window. */
  function Level(cfg: ThrottleConfig, window: seq<real>): Health
    requires window != []
  {
    var average := Sum(window) / (|window| as real);
    if average < cfg.healthyThreshold then Healthy
    else if average < cfg.degradedThreshold then Degraded
    else if average < cfg.stressedThreshold then Stressed
    else Overloaded
  }

  function Pushed(cfg: ThrottleConfig, window: seq<real>, time: real): seq<real> {
    if |window| + 1 > cfg.windowSize then (window + [time])[1..] else window + [time]
  }

  function Lesser(a: Option<real>, b: real): real {
    if a.None? || b < a.value then b else a.value
  }

  function Timed(stats: Stats, time: real): Stats {
    stats.(total := stats.total + 1, sumTime := stats.sumTime + time, minTime := Some(Lesser(stats.minTime, time)),
           maxTime := if time > stats.maxTime then time else stats.maxTime)
  }

  function Counted(stats: Stats, level: Health): Stats {
    match level
    case Healthy => stats.(healthy := stats.healthy + 1)
    case Degraded => stats.(degraded := stats.degraded + 1)
    case Stressed => stats.(stressed := stats.stressed + 1)
    case Overloaded => stats.(overloaded := stats.overloaded + 1)
  }

  /** `_update_health` */
  function Updated(cfg: ThrottleConfig, s: State): State {
    if s.window == [] then s
    else
      var level := Level(cfg, s.window);
      var fast := if level.Healthy? then s.fast + 1 else 0;
      var stats := Counted(s.stats, level);
      if Rank(level) > Rank(s.health) then State(stats, s.window, level, fast, cfg.delay(level), cfg.multiplier(level))
      else if Rank(level) < Rank(s.health) && fast >= cfg.recoveryRequests then
        State(stats.(recoveries := stats.recoveries + 1), s.window, level, 0, cfg.delay(level), cfg.multiplier(level))
      else s.(stats := stats, fast := fast)
  }

  /** `record_response` */
  function Recorded(cfg: ThrottleConfig, s: State, time: real): State {
    Updated(cfg, s.(stats := Timed(s.stats, time), window := Pushed(cfg, s.window, time)))
  }

  /** `int(x)` of a float: towards zero. */
  function Truncated(x: real): int {
    if x >= 0.0 then x.Floor else -((-x).Floor)
  }

  function Adjusted(factor: real, original: nat): int {
    Truncated(original as real * factor)
  }

  function BatchSize(cfg: ThrottleConfig, s: State, original: nat): int {
    var adjusted := Adjusted(s.factor, original);
    if adjusted > cfg.minBatchSize then adjusted else cfg.minBatchSize
  }

  /** The calls that change the controller. */
  datatype Call = Response(time: real) | Error(isServerError: bool) | AskBatchSize(original: nat) | ApplyDelay

  function After(cfg: ThrottleConfig, s: State, call: Call): State {
    match call
    case Response(time) => Recorded(cfg, s, time)
    case Error(isServerError) => if isServerError then Recorded(cfg, s, cfg.stressedThreshold * 2.0) else s
    case AskBatchSize(original) =>
      if Adjusted(s.factor, original) < original then s.(stats := s.stats.(reductions := s.stats.reductions + 1)) else s
    case ApplyDelay =>
      if s.delay > 0.0 then s.(stats := s.stats.(delayAdded := s.stats.delayAdded + s.delay)) else s
  }

  function Run(cfg: ThrottleConfig, s: State, calls: seq<Call>): State {
    if calls == [] then s else After(cfg, Run(cfg, s, calls[..|calls| - 1]), calls[|calls| - 1])
  }

  /** The response times a run has recorded. */
  function Times(cfg: ThrottleConfig, calls: seq<Call>): seq<real> {
    if calls == [] then []
    else
      var before, last := Times(cfg, calls[..|calls| - 1]), calls[|calls| - 1];
      match last
      case Response(time) => before + [time]
      case Error(isServerError) => if isServerError then before + [cfg.stressedThreshold * 2.0] else before
      case _ => before
  }

  // ----- The controller -----

  class ThrottleController {
    const config: ThrottleConfig
    var stats: Stats
    var responseTimes: seq<real>
    var currentHealth: Health
    var consecutiveFastResponses: nat
    var currentDelay: real
    var batchSizeFactor: real

    function Model(): State
      reads this
    {
      State(stats, responseTimes, currentHealth, consecutiveFastResponses, currentDelay, batchSizeFactor)
    }

    constructor (config: ThrottleConfig)
      ensures this.config == config && Model() == Initial()
    {
      this.config := config;
      stats := Stats(0, 0, 0, 0, 0, 0.0, 0, 0, None, 0.0, 0.0);
      responseTimes := [];
      currentHealth, consecutiveFastResponses := Healthy, 0;
      currentDelay, batchSizeFactor := 0.0, 1.0;
    }

    method RecordResponse(time: real)
      modifies this
      ensures Model() == Recorded(config, old(Model()), time)
    {
      hide Updated;
      stats := stats.(total := stats.total + 1, sumTime := stats.sumTime + time);
      var slowest := if time > stats.maxTime then time else stats.maxTime;
      stats := stats.(minTime := Some(Lesser(stats.minTime, time)), maxTime := slowest);
      responseTimes := responseTimes + [time];
      if |responseTimes| > config.windowSize {
        responseTimes := responseTimes[1..];
      }
      UpdateHealth();
    }

    method UpdateHealth()
      modifies this
      ensures Model() == Updated(config, old(Model()))
    {
      if responseTimes == [] {
        return;
      }
      var averageTime := Sum(responseTimes) / (|responseTimes| as real);
      var oldHealth, newHealth := currentHealth, Healthy;
      if averageTime < config.healthyThreshold {
        consecutiveFastResponses := consecutiveFastResponses + 1;
      } else if averageTime < config.degradedThreshold {
        newHealth, consecutiveFastResponses := Degraded, 0;
      } else if averageTime < config.stressedThreshold {
        newHealth, consecutiveFastResponses := Stressed, 0;
      } else {
        newHealth, consecutiveFastResponses := Overloaded, 0;
      }
      match newHealth {
        case Healthy => stats := stats.(healthy := stats.healthy + 1);
        case Degraded => stats := stats.(degraded := stats.degraded + 1);
        case Stressed => stats := stats.(stressed := stats.stressed + 1);
        case Overloaded => stats := stats.(overloaded := stats.overloaded + 1);
      }
      if Rank(newHealth) > Rank(oldHealth) {
        currentHealth := newHealth;
        UpdateThrottleParams();
      } else if Rank(newHealth) < Rank(oldHealth) && consecutiveFastResponses >= config.recoveryRequests {
        currentHealth := newHealth;
        UpdateThrottleParams();
        consecutiveFastResponses := 0;
        stats := stats.(recoveries := stats.recoveries + 1);
      }
    }

    method UpdateThrottleParams()
      modifies this`currentDelay, this`batchSizeFactor
      ensures currentDelay == config.delay(currentHealth) && batchSizeFactor == config.multiplier(currentHealth)
    {
      currentDelay, batchSizeFactor := config.delay(currentHealth), config.multiplier(currentHealth);
    }

    method GetBatchSize(original: nat) returns (size: int)
      modifies this`stats
      ensures size == BatchSize(config, old(Model()), original)
      ensures Model() == After(config, old(Model()), AskBatchSize(original))
    {
      hide Adjusted;
      size := Adjusted(batchSizeFactor, original);
      if size < original {
        stats := stats.(reductions := stats.reductions + 1);
      }
      if size < config.minBatchSize {
        size := config.minBatchSize;
      }
    }

    method AddDelay() returns (seconds: real)
      modifies this`stats
      ensures Model() == After(config, old(Model()), ApplyDelay)
      ensures seconds == if currentDelay > 0.0 then currentDelay else 0.0
    {
      seconds := 0.0;
      if currentDelay > 0.0 {
        stats := stats.(delayAdded := stats.delayAdded + currentDelay);
        seconds := currentDelay;
      }
    }

    method RecordError(isServerError: bool)
      modifies this
      ensures Model() == After(config, old(Model()), Error(isServerError))
    {
      if isServerError {
        RecordResponse(config.stressedThreshold * 2.0);
      }
    }
  }

  // ----- Every run -----

  /** The last responses, as many as the window holds. */
  function Last(times: seq<real>, size: nat): seq<real> {
    if |times| <= size then times else times[|times| - size..]
  }

  /** Some transition has taken place. */
  predicate Moved(s: State) {
    !s.health.Healthy? || s.stats.recoveries > 0
  }

  ghost predicate Accounted(cfg: ThrottleConfig, s: State, times: seq<real>) {
    var stats := s.stats;
    && stats.total == |times| && stats.sumTime == Sum(times)
    && (cfg.windowSize >= 1 ==> stats.healthy + stats.degraded + stats.stressed + stats.overloaded == stats.total)
    && s.window == Last(times, cfg.windowSize)
    && cfg.recoveryRequests * stats.recoveries + s.fast <= stats.healthy
    && (if Moved(s) then s.delay == cfg.delay(s.health) && s.factor == cfg.multiplier(s.health)
        else s.delay == 0.0 && s.factor == 1.0)
  }

  lemma RecordKeepsAccounts(cfg: ThrottleConfig, s: State, times: seq<real>, time: real)
    requires Accounted(cfg, s, times)
    ensures Accounted(cfg, Recorded(cfg, s, time), times + [time])
  {
    hide Level;
    assert (times + [time])[..|times|] == times;
    assert Pushed(cfg, s.window, time) == Last(times + [time], cfg.windowSize);
    var r, k := cfg.recoveryRequests, s.stats.recoveries;
    assert r * (k + 1) == r * k + r;
  }

  /**
   In every run the four counters add up to the requests, the window is the last responses, recoveries
   are paid for by healthy responses, and delay and factor are those of the current health as soon as it
   has changed once. Before that they are 0 and 1, not those configured for a healthy server.
   */
  lemma {:induction false} EveryRunAccounts(cfg: ThrottleConfig, calls: seq<Call>)
    ensures Accounted(cfg, Run(cfg, Initial(), calls), Times(cfg, calls))
  {
    hide Recorded;
    if calls != [] {
      var init, last := calls[..|calls| - 1], calls[|calls| - 1];
      EveryRunAccounts(cfg, init);
      var s, times := Run(cfg, Initial(), init), Times(cfg, init);
      match last {
        case Response(time) => RecordKeepsAccounts(cfg, s, times, time);
        case Error(isServerError) => RecordKeepsAccounts(cfg, s, times, cfg.stressedThreshold * 2.0);
        case _ =>
      }
    }
  }

  /** A level is left upwards at once, and downwards only straight to Healthy. */
  lemma ImprovementIsComplete(cfg: ThrottleConfig, s: State, call: Call)
    requires cfg.recoveryRequests >= 1
    ensures var s' := After(cfg, s, call);
      && (Rank(s'.health) < Rank(s.health) ==> s'.health == Healthy && s'.stats.recoveries == s.stats.recoveries + 1)
      && (s'.window != s.window && s'.window != [] ==> Rank(Level(cfg, s'.window)) <= Rank(s'.health))
  {
    hide Level, Pushed;
  }

  lemma {:induction false} SumBelow(times: seq<real>, bound: real)
    requires forall i :: 0 <= i < |times| ==> times[i] < bound
    ensures times != [] ==> Sum(times) < bound * (|times| as real)
    ensures times == [] ==> Sum(times) == 0.0
  {
    if |times| > 1 {
      SumBelow(times[..|times| - 1], bound);
    } else if |times| == 1 {
      assert times[..0] == [];
    }
  }

  /** A window of fast responses is healthy. */
  lemma FastWindowIsHealthy(cfg: ThrottleConfig, window: seq<real>)
    requires window != [] && forall i :: 0 <= i < |window| ==> window[i] < cfg.healthyThreshold
    ensures Level(cfg, window) == Healthy
  {
    SumBelow(window, cfg.healthyThreshold);
    Quotient(Sum(window), |window| as real, cfg.healthyThreshold);
  }

  lemma Quotient(a: real, n: real, b: real)
    requires n > 0.0 && a < b * n
    ensures a / n < b
  {
    assert a / n * n == a;
    if a / n >= b {
      Scaled(a / n, b, n);
      assert false;
    }
  }

  lemma Scaled(x: real, y: real, n: real)
    requires x >= y && n > 0.0
    ensures x * n >= y * n
  {
  }

  // ----- The levels, by the sum of the window -----

  predicate Ascending(cfg: ThrottleConfig) {
    cfg.healthyThreshold <= cfg.degradedThreshold <= cfg.stressedThreshold
  }

  /** The responses of the window took less than `threshold` each, on average. */
  predicate Under(window: seq<real>, threshold: real) {
    Sum(window) < threshold * |window| as real
  }

  /** The window lies between the threshold of the better level and that of the level itself. */
  predicate InBand(cfg: ThrottleConfig, window: seq<real>, h: Health) {
    match h
    case Healthy => Under(window, cfg.healthyThreshold)
    case Degraded => !Under(window, cfg.healthyThreshold) && Under(window, cfg.degradedThreshold)
    case Stressed => !Under(window, cfg.degradedThreshold) && Under(window, cfg.stressedThreshold)
    case Overloaded => !Under(window, cfg.stressedThreshold)
  }

  lemma UnderIsAverage(window: seq<real>, threshold: real)
    requires window != []
    ensures Under(window, threshold) <==> Sum(window) / (|window| as real) < threshold
  {
    if Under(window, threshold) {
      Quotient(Sum(window), |window| as real, threshold);
    } else {
      AtLeast(Sum(window), |window| as real, threshold);
    }
  }

  /** The level is at most Healthy, Degraded or Stressed exactly when the window is under that threshold. */
  lemma LevelIsBand(cfg: ThrottleConfig, window: seq<real>)
    requires Ascending(cfg) && window != []
    ensures Rank(Level(cfg, window)) <= Rank(Healthy) <==> Under(window, cfg.healthyThreshold)
    ensures Rank(Level(cfg, window)) <= Rank(Degraded) <==> Under(window, cfg.degradedThreshold)
    ensures Rank(Level(cfg, window)) <= Rank(Stressed) <==> Under(window, cfg.stressedThreshold)
    ensures forall h :: InBand(cfg, window, h) <==> Level(cfg, window) == h
  {
    hide Under, Sum;
    UnderIsAverage(window, cfg.healthyThreshold);
    UnderIsAverage(window, cfg.degradedThreshold);
    UnderIsAverage(window, cfg.stressedThreshold);
  }

  lemma {:induction false} SumMonotone(a: seq<real>, b: seq<real>)
    requires |a| == |b| && forall i :: 0 <= i < |a| ==> a[i] <= b[i]
    ensures Sum(a) <= Sum(b)
  {
    if a != [] {
      SumMonotone(a[..|a| - 1], b[..|b| - 1]);
    }
  }

  /** A window with slower responses never has a better level. */
  lemma SlowerIsNoBetter(cfg: ThrottleConfig, a: seq<real>, b: seq<real>)
    requires Ascending(cfg) && a != [] && |a| == |b| && forall i :: 0 <= i < |a| ==> a[i] <= b[i]
    ensures Rank(Level(cfg, a)) <= Rank(Level(cfg, b))
  {
    hide Level, Sum;
    SumMonotone(a, b);
    LevelIsBand(cfg, a);
    LevelIsBand(cfg, b);
  }

  /** How many of the responses found the window in the band of h. */
  function CountIn(cfg: ThrottleConfig, times: seq<real>, h: Health): nat {
    if times == [] then 0
    else CountIn(cfg, times[..|times| - 1], h) + if InBand(cfg, Last(times, cfg.windowSize), h) then 1 else 0
  }

  predicate CountedIn(cfg: ThrottleConfig, stats: Stats, times: seq<real>) {
    && stats.healthy == CountIn(cfg, times, Healthy) && stats.degraded == CountIn(cfg, times, Degraded)
    && stats.stressed == CountIn(cfg, times, Stressed) && stats.overloaded == CountIn(cfg, times, Overloaded)
  }

  lemma RecordCounts(cfg: ThrottleConfig, s: State, times: seq<real>, time: real)
    requires Ascending(cfg) && cfg.windowSize >= 1 && s.window == Last(times, cfg.windowSize)
    requires CountedIn(cfg, s.stats, times)
    ensures CountedIn(cfg, Recorded(cfg, s, time).stats, times + [time])
  {
    hide Level, InBand;
    assert (times + [time])[..|times|] == times;
    var window := Pushed(cfg, s.window, time);
    assert window == Last(times + [time], cfg.windowSize);
    LevelIsBand(cfg, window);
  }

  /** In every run each class counter is the number of responses that found the window in its band. */
  lemma {:induction false} CountersAreBands(cfg: ThrottleConfig, calls: seq<Call>)
    requires Ascending(cfg) && cfg.windowSize >= 1
    ensures CountedIn(cfg, Run(cfg, Initial(), calls).stats, Times(cfg, calls))
  {
    hide Recorded, CountIn, InBand;
    if calls == [] {
      NothingCounted(cfg);
    } else {
      var init, last := calls[..|calls| - 1], calls[|calls| - 1];
      CountersAreBands(cfg, init);
      EveryRunAccounts(cfg, init);
      var s, times := Run(cfg, Initial(), init), Times(cfg, init);
      match last {
        case Response(time) => RecordCounts(cfg, s, times, time);
        case Error(isServerError) => RecordCounts(cfg, s, times, cfg.stressedThreshold * 2.0);
        case _ =>
      }
    }
  }

  lemma NothingCounted(cfg: ThrottleConfig)
    ensures CountedIn(cfg, Initial().stats, [])
  {
  }

  /**
   One response: a window in a worse band than the health makes it the health at once; a better one changes
   nothing but for the recovery after enough healthy windows in a row, and then the health is Healthy.
   */
  lemma HealthFollowsBand(cfg: ThrottleConfig, s: State, time: real, h: Health)
    requires Ascending(cfg) && cfg.windowSize >= 1 && cfg.recoveryRequests >= 1
    requires InBand(cfg, Pushed(cfg, s.window, time), h)
    ensures var s' := Recorded(cfg, s, time);
      && (Rank(h) >= Rank(s.health) ==> s'.health == h)
      && (Rank(h) < Rank(s.health) ==>
            s'.health == if h == Healthy && s.fast + 1 >= cfg.recoveryRequests then Healthy else s.health)
      && s'.fast == (if h != Healthy || (Rank(h) < Rank(s.health) && s.fast + 1 >= cfg.recoveryRequests) then 0
                     else s.fast + 1)
  {
    hide Level, InBand;
    LevelIsBand(cfg, Pushed(cfg, s.window, time));
  }

  // ----- The other statistics -----

  /** The extremes of the recorded times; the maximum starts at 0. */
  ghost predicate Extremes(stats: Stats, times: seq<real>) {
    && (stats.minTime.None? <==> times == [])
    && (times != [] ==> stats.minTime.value in times && forall i :: 0 <= i < |times| ==>
         stats.minTime.value <= times[i])
    && (stats.maxTime == 0.0 || stats.maxTime in times) && stats.maxTime >= 0.0
    && forall i :: 0 <= i < |times| ==> times[i] <= stats.maxTime
  }

  lemma {:induction false} ExtremesAreTimes(cfg: ThrottleConfig, calls: seq<Call>)
    ensures Extremes(Run(cfg, Initial(), calls).stats, Times(cfg, calls))
  {
    hide Updated;
    if calls != [] {
      var init, last := calls[..|calls| - 1], calls[|calls| - 1];
      ExtremesAreTimes(cfg, init);
      var s, times := Run(cfg, Initial(), init), Times(cfg, init);
      match last {
        case Response(time) => RecordExtremes(cfg, s, times, time);
        case Error(isServerError) => RecordExtremes(cfg, s, times, cfg.stressedThreshold * 2.0);
        case _ =>
      }
    }
  }

  lemma RecordExtremes(cfg: ThrottleConfig, s: State, times: seq<real>, time: real)
    requires Extremes(s.stats, times)
    ensures Extremes(Recorded(cfg, s, time).stats, times + [time])
  {
    hide Level;
    assert (times + [time])[|times|] == time;
  }

  /** The positive delays in force when they were applied. */
  function DelaysIn(cfg: ThrottleConfig, calls: seq<Call>): real {
    if calls == [] then 0.0
    else
      var init, last := calls[..|calls| - 1], calls[|calls| - 1];
      var delay := Run(cfg, Initial(), init).delay;
      DelaysIn(cfg, init) + if last.ApplyDelay? && delay > 0.0 then delay else 0.0
  }

  /** The total delay is the sum of the delays applied. */
  lemma {:induction false} DelaysAddUp(cfg: ThrottleConfig, calls: seq<Call>)
    ensures Run(cfg, Initial(), calls).stats.delayAdded == DelaysIn(cfg, calls)
  {
    hide Recorded;
    if calls != [] {
      var init, last := calls[..|calls| - 1], calls[|calls| - 1];
      DelaysAddUp(cfg, init);
      if last.Response? {
        RecordAddsNoDelay(cfg, Run(cfg, Initial(), init), last.time);
      } else if last.Error? {
        RecordAddsNoDelay(cfg, Run(cfg, Initial(), init), cfg.stressedThreshold * 2.0);
      }
    }
  }

  lemma RecordAddsNoDelay(cfg: ThrottleConfig, s: State, time: real)
    ensures Recorded(cfg, s, time).stats.delayAdded == s.stats.delayAdded
  {
    hide Level;
  }

  function Responses(times: seq<real>): (calls: seq<Call>)
    ensures |calls| == |times|
  {
    seq(|times|, i requires 0 <= i < |times| => Response(times[i]))
  }

  lemma ResponsesExtend(cfg: ThrottleConfig, s: State, times: seq<real>)
    requires times != []
    ensures Run(cfg, s, Responses(times))
            == Recorded(cfg, Run(cfg, s, Responses(times[..|times| - 1])), times[|times| - 1])
  {
    assert Responses(times)[..|times| - 1] == Responses(times[..|times| - 1]);
  }

  /** How far n fast responses have brought the controller. */
  ghost predicate Progress(cfg: ThrottleConfig, s: State, n: nat) {
    && |s.window| <= cfg.windowSize
    && (forall i :: 0 <= i < |s.window| && |s.window| - n <= i ==> s.window[i] < cfg.healthyThreshold)
    && (n >= cfg.windowSize ==> s.health == Healthy || s.fast + cfg.windowSize >= n + 1)
    && (n >= 1 ==> s.window != [])
    && (s.health != Healthy && cfg.windowSize <= n ==> s.fast < cfg.recoveryRequests)
  }

  lemma FastResponseProgresses(cfg: ThrottleConfig, s: State, n: nat, time: real)
    requires cfg.windowSize >= 1 && cfg.recoveryRequests >= 1 && Progress(cfg, s, n) && time < cfg.healthyThreshold
    ensures Progress(cfg, Recorded(cfg, s, time), n + 1)
  {
    hide Level;
    var window := Pushed(cfg, s.window, time);
    if n + 1 >= cfg.windowSize {
      FastWindowIsHealthy(cfg, window);
    }
  }

  /**
   From any state with a window within its size, window_size + recovery_requests - 1 fast responses in a
   row end in Healthy, and so does every longer row.
   */
  lemma {:induction false} BoundedRecovery(cfg: ThrottleConfig, s: State, times: seq<real>)
    requires cfg.windowSize >= 1 && cfg.recoveryRequests >= 1 && |s.window| <= cfg.windowSize
    requires forall i :: 0 <= i < |times| ==> times[i] < cfg.healthyThreshold
    ensures Progress(cfg, Run(cfg, s, Responses(times)), |times|)
    ensures |times| >= cfg.windowSize + cfg.recoveryRequests - 1 ==> Run(cfg, s, Responses(times)).health == Healthy
  {
    hide Recorded;
    if times != [] {
      BoundedRecovery(cfg, s, times[..|times| - 1]);
      ResponsesExtend(cfg, s, times);
      FastResponseProgresses(cfg, Run(cfg, s, Responses(times[..|times| - 1])), |times| - 1, times[|times| - 1]);
    }
  }

  // ----- The bound cannot be lowered -----

  predicate Ordered(cfg: ThrottleConfig) {
    0.0 < cfg.healthyThreshold <= cfg.degradedThreshold <= cfg.stressedThreshold
  }

  /** So slow that one such response alone makes a window Overloaded. */
  function Slow(cfg: ThrottleConfig): real {
    cfg.stressedThreshold * cfg.windowSize as real
  }

  /** A window full of slow responses, then immediate ones. */
  function SlowThenFast(cfg: ThrottleConfig, n: nat): (times: seq<real>)
    ensures |times| == n
  {
    seq(n, i requires 0 <= i < n => if i < cfg.windowSize then Slow(cfg) else 0.0)
  }

  lemma {:induction false} SumAtLeast(times: seq<real>, i: nat)
    requires i < |times| && forall k :: 0 <= k < |times| ==> times[k] >= 0.0
    ensures Sum(times) >= times[i]
  {
    if i < |times| - 1 {
      SumAtLeast(times[..|times| - 1], i);
    } else {
      SumNotNegative(times[..|times| - 1]);
    }
  }

  lemma {:induction false} SumNotNegative(times: seq<real>)
    requires forall k :: 0 <= k < |times| ==> times[k] >= 0.0
    ensures Sum(times) >= 0.0
  {
    if times != [] {
      SumNotNegative(times[..|times| - 1]);
    }
  }

  lemma SlowEnough(cfg: ThrottleConfig, n: nat)
    requires Ordered(cfg) && n <= cfg.windowSize
    ensures Slow(cfg) >= cfg.stressedThreshold * n as real && Slow(cfg) >= 0.0
  {
    var l, w := n as real, cfg.windowSize as real;
    Longer(cfg.stressedThreshold, l, w);
    Longer(cfg.stressedThreshold, 0.0, w);
  }

  lemma SlowWindow(cfg: ThrottleConfig, window: seq<real>, i: nat)
    requires Ordered(cfg) && |window| <= cfg.windowSize && i < |window|
    requires window[i] == Slow(cfg)
    requires forall k :: 0 <= k < |window| ==> window[k] >= 0.0
    ensures Level(cfg, window) == Overloaded
  {
    SumAtLeast(window, i);
    SlowEnough(cfg, |window|);
    AtLeast(Sum(window), |window| as real, cfg.stressedThreshold);
  }

  lemma AtLeast(a: real, n: real, b: real)
    requires n > 0.0 && a >= b * n
    ensures a / n >= b
  {
    assert a / n * n == a;
    if a / n < b {
      Stretched(b, a / n, n);
    }
  }

  lemma Stretched(x: real, y: real, n: real)
    requires x > y && n > 0.0
    ensures x * n > y * n
  {
  }

  lemma Longer(t: real, l: real, w: real)
    requires t > 0.0 && l <= w
    ensures t * l <= t * w
  {
  }

  /**
   While a slow response is in the window nothing improves; after that, fast responses count up to the requirement.
   */
  lemma {:induction false} SlowStart(cfg: ThrottleConfig, n: nat)
    requires Ordered(cfg) && cfg.windowSize >= 1 && cfg.recoveryRequests >= 1
    requires 1 <= n <= 2 * cfg.windowSize + cfg.recoveryRequests - 2
    ensures var s := Run(cfg, Initial(), Responses(SlowThenFast(cfg, n)));
      && s.window == Last(SlowThenFast(cfg, n), cfg.windowSize) && s.health == Overloaded
      && s.fast == (if n >= 2 * cfg.windowSize then n - 2 * cfg.windowSize + 1 else 0)
    decreases n
  {
    hide Level, Run, Slow, Recorded;
    var times := SlowThenFast(cfg, n);
    var before, last := times[..n - 1], times[n - 1];
    assert before == SlowThenFast(cfg, n - 1);
    ResponsesExtend(cfg, Initial(), times);
    if n == 1 {
      NoResponses(cfg, before);
    } else {
      SlowStart(cfg, n - 1);
    }
    var s := Run(cfg, Initial(), Responses(before));
    assert Pushed(cfg, s.window, last) == Last(times, cfg.windowSize);
    SlowLevel(cfg, n);
    SlowStep(cfg, s, n, last);
  }

  lemma SlowStep(cfg: ThrottleConfig, s: State, n: nat, time: real)
    requires cfg.windowSize >= 1 && cfg.recoveryRequests >= 1 && n <= 2 * cfg.windowSize + cfg.recoveryRequests - 2
    requires n >= 1 && (n > 1 ==> s.health == Overloaded)
    requires s.fast == (if n - 1 >= 2 * cfg.windowSize then n - 2 * cfg.windowSize else 0)
    requires var window := Pushed(cfg, s.window, time);
      window != [] && Level(cfg, window) == if n < 2 * cfg.windowSize then Overloaded else Healthy
    ensures var s' := Recorded(cfg, s, time);
      && s'.window == Pushed(cfg, s.window, time) && s'.health == Overloaded
      && s'.fast == (if n >= 2 * cfg.windowSize then n - 2 * cfg.windowSize + 1 else 0)
  {
    hide Level, Pushed;
  }

  lemma NoResponses(cfg: ThrottleConfig, none: seq<real>)
    requires none == []
    ensures Run(cfg, Initial(), Responses(none)) == Initial()
  {
  }

  lemma SlowLevel(cfg: ThrottleConfig, n: nat)
    requires Ordered(cfg) && cfg.windowSize >= 1 && n >= 1
    ensures Last(SlowThenFast(cfg, n), cfg.windowSize) != []
    ensures Level(cfg, Last(SlowThenFast(cfg, n), cfg.windowSize))
            == if n < 2 * cfg.windowSize then Overloaded else Healthy
  {
    hide Level, Slow;
    var window := Last(SlowThenFast(cfg, n), cfg.windowSize);
    SlowEnough(cfg, 0);
    if n < 2 * cfg.windowSize {
      SlowWindow(cfg, window, 0);
    } else {
      FastWindowIsHealthy(cfg, window);
    }
  }

  /**
   One fast response fewer is not enough, whatever the settings: after a window of slow responses,
   window_size + recovery_requests - 2 fast ones in a row leave the server Overloaded.
   */
  lemma RecoveryBoundIsTight(cfg: ThrottleConfig)
    requires Ordered(cfg) && cfg.windowSize >= 1 && cfg.recoveryRequests >= 1
    ensures var slow, fast := SlowThenFast(cfg, cfg.windowSize),
            seq(cfg.windowSize + cfg.recoveryRequests - 2, i => 0.0);
      && (forall i :: 0 <= i < |fast| ==> fast[i] < cfg.healthyThreshold)
      && Run(cfg, Initial(), Responses(slow + fast)).health == Overloaded
  {
    hide Run, Level, Slow;
    var n := 2 * cfg.windowSize + cfg.recoveryRequests - 2;
    assert SlowThenFast(cfg, n)
           == SlowThenFast(cfg, cfg.windowSize) + seq(cfg.windowSize + cfg.recoveryRequests - 2, i => 0.0);
    SlowStart(cfg, n);
  }

  /** The recommended size never falls below the minimum nor, with factors of at most 1, rises above the original. */
  lemma BatchSizeBounds(cfg: ThrottleConfig, calls: seq<Call>, original: nat)
    requires forall h :: 0.0 <= cfg.multiplier(h) <= 1.0
    ensures var size := BatchSize(cfg, Run(cfg, Initial(), calls), original);
      cfg.minBatchSize <= size && (size <= original || size == cfg.minBatchSize)
  {
    FactorBounds(cfg, calls);
    hide Run, BatchSize;
    SizeBounds(cfg, Run(cfg, Initial(), calls), original);
  }

  /** The original size times the factor, before rounding. */
  function Share(factor: real, original: nat): real {
    original as real * factor
  }

  /**
   The recommended size is the share of the original rounded down, unless that is below the minimum; it
   counts as a reduction exactly when the share is less than the whole.
   */
  lemma BatchSizeIsShare(cfg: ThrottleConfig, s: State, original: nat)
    requires s.factor >= 0.0
    ensures var size, share := BatchSize(cfg, s, original), Share(s.factor, original);
      size >= cfg.minBatchSize && share < size as real + 1.0 && (size > cfg.minBatchSize ==> size as real <= share)
    ensures After(cfg, s, AskBatchSize(original)).stats.reductions
            == s.stats.reductions + if Share(s.factor, original) < original as real then 1 else 0
  {
    hide Adjusted, Share;
    AdjustedIsFloor(s.factor, original);
    FloorFacts(Share(s.factor, original), original);
  }

  lemma AdjustedIsFloor(factor: real, original: nat)
    requires factor >= 0.0
    ensures Adjusted(factor, original) == Share(factor, original).Floor
  {
    NotNegative(original as real, factor);
    var x := original as real * factor;
    assert Adjusted(factor, original) == Truncated(x);
  }

  lemma NotNegative(x: real, y: real)
    requires x >= 0.0 && y >= 0.0
    ensures x * y >= 0.0
  {
  }

  lemma FloorFacts(x: real, n: nat)
    ensures x.Floor as real <= x < x.Floor as real + 1.0
    ensures x.Floor < n <==> x < n as real
  {
  }

  lemma SizeBounds(cfg: ThrottleConfig, s: State, original: nat)
    requires 0.0 <= s.factor <= 1.0
    ensures cfg.minBatchSize <= BatchSize(cfg, s, original)
    ensures BatchSize(cfg, s, original) <= original || BatchSize(cfg, s, original) == cfg.minBatchSize
  {
    hide Adjusted;
    AdjustedBounds(s.factor, original);
  }

  lemma FactorBounds(cfg: ThrottleConfig, calls: seq<Call>)
    requires forall h :: 0.0 <= cfg.multiplier(h) <= 1.0
    ensures 0.0 <= Run(cfg, Initial(), calls).factor <= 1.0
  {
    EveryRunAccounts(cfg, calls);
    hide Run, Last, Sum;
  }

  lemma AdjustedBounds(factor: real, original: nat)
    requires 0.0 <= factor <= 1.0
    ensures 0 <= Adjusted(factor, original) <= original
  {
    Shrinks(original as real, factor);
    var x := original as real * factor;
    TruncatedBelow(x, original);
    assert Adjusted(factor, original) == Truncated(x);
  }

  lemma TruncatedBelow(x: real, n: nat)
    requires 0.0 <= x <= n as real
    ensures 0 <= Truncated(x) <= n
  {
  }

  lemma Shrinks(x: real, factor: real)
    requires x >= 0.0 && 0.0 <= factor <= 1.0
    ensures 0.0 <= x * factor <= x
  {
  }
}
