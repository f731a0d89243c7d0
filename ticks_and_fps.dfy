/**
 * The fixed-timestep scheduler: each frame, update() measures the time since
 * the previous frame, keeps a once-per-second frame counter, and turns the
 * accumulated fraction of tick durations into a whole number of ticks to run,
 * at most half a second's worth. Clock readings are whole milliseconds passed
 * in by the caller; the double-precision fields are reals.
 */
module Timing {
  /** The C# (int) cast of a double: truncation toward zero. */
  function TruncToInt(r: real): (n: int)
    ensures r >= 0.0 ==> n as real <= r < n as real + 1.0
    ensures r < 0.0 ==> n as real - 1.0 < r <= n as real
    ensures (n >= 0) == (r > -1.0)
  {
    if r >= 0.0 then r.Floor else -((-r).Floor)
  }

  /** The part of update() after the FPS counter. */
  datatype TickState = TickState(ticksElapsed: int, percentToNextTick: real)

  /** The FPS counter's three fields. */
  datatype FpsState = FpsState(timer: real, frames: int, fps: int)

  /**
   * The tick half of update(): a frame that ticked restarts the accumulator,
   * this frame's share of a tick is added, the total is truncated to whole
   * ticks, and more than half a second's worth is cut to (int)tps / 2 ticks.
   * The cap changes the tick count only, never the accumulator.
   */
  function TickStep(prev: TickState, deltaTime: real, timePerTick: real, ticksPerSecond: real): (next: TickState)
    requires timePerTick > 0.0 && ticksPerSecond > 0.0
  {
    var pct := (if prev.ticksElapsed > 0 then 0.0 else prev.percentToNextTick) + deltaTime / timePerTick;
    var ticks := TruncToInt(pct);
    TickState(if ticks as real > ticksPerSecond / 2.0 then TruncToInt(ticksPerSecond) / 2 else ticks, pct)
  }

  /** The FPS half of update(): once a second of frame time has gathered, fps takes the frame count and the count restarts. */
  function FpsStep(prev: FpsState, deltaTime: real): (next: FpsState)
  {
    var timer := prev.timer + deltaTime;
    // frames is reset to 0 and then counts this frame
    if timer >= 1.0 then FpsState(timer - 1.0, 1, prev.frames)
    else FpsState(timer, prev.frames + 1, prev.fps)
  }

  /** The tick count after any frame lies in [0, (int)tps / 2] when time does not run backwards. */
  lemma TickBounds(prev: TickState, deltaTime: real, timePerTick: real, ticksPerSecond: real)
    requires timePerTick > 0.0 && ticksPerSecond > 0.0
    requires deltaTime >= 0.0 && prev.percentToNextTick >= 0.0
    ensures 0 <= TickStep(prev, deltaTime, timePerTick, ticksPerSecond).ticksElapsed <= TruncToInt(ticksPerSecond) / 2
  {
    var pct := (if prev.ticksElapsed > 0 then 0.0 else prev.percentToNextTick) + deltaTime / timePerTick;
    var ticks := TruncToInt(pct);
    var cap := TruncToInt(ticksPerSecond);
    if ticks as real <= ticksPerSecond / 2.0 {
      // ticks <= tps / 2 < (cap + 1) / 2, so 2 * ticks <= cap
      assert 2 * ticks <= cap by {
        assert ticksPerSecond < cap as real + 1.0;
        assert (2 * ticks) as real < cap as real + 1.0;
      }
    }
  }

  /** Without the cap, the tick count is the truncated accumulator. */
  lemma UncappedTicks(prev: TickState, deltaTime: real, timePerTick: real, ticksPerSecond: real)
    requires timePerTick > 0.0 && ticksPerSecond > 0.0
    requires TruncToInt(TickStep(prev, deltaTime, timePerTick, ticksPerSecond).percentToNextTick) as real <= ticksPerSecond / 2.0
    ensures TickStep(prev, deltaTime, timePerTick, ticksPerSecond).ticksElapsed
            == TruncToInt(TickStep(prev, deltaTime, timePerTick, ticksPerSecond).percentToNextTick)
  {
  }

  /**
   * After a frame that ticked the leftover fraction is discarded: the
   * accumulator holds only this frame's share of a tick.
   */
  lemma LeftoverDiscarded(prev: TickState, deltaTime: real, timePerTick: real, ticksPerSecond: real)
    requires timePerTick > 0.0 && ticksPerSecond > 0.0
    requires prev.ticksElapsed > 0
    ensures TickStep(prev, deltaTime, timePerTick, ticksPerSecond).percentToNextTick == deltaTime / timePerTick
  {
  }

  /** When the cap fires, the accumulator keeps the full amount, which is at least one whole tick. */
  lemma CapKeepsAccumulator(prev: TickState, deltaTime: real, timePerTick: real, ticksPerSecond: real)
    requires timePerTick > 0.0 && ticksPerSecond > 0.0
    requires TruncToInt(TickStep(prev, deltaTime, timePerTick, ticksPerSecond).percentToNextTick) as real > ticksPerSecond / 2.0
    ensures TickStep(prev, deltaTime, timePerTick, ticksPerSecond).percentToNextTick >= 1.0
    ensures TickStep(prev, deltaTime, timePerTick, ticksPerSecond).ticksElapsed
            < TruncToInt(TickStep(prev, deltaTime, timePerTick, ticksPerSecond).percentToNextTick)
  {
    var next := TickStep(prev, deltaTime, timePerTick, ticksPerSecond);
    var cap := TruncToInt(ticksPerSecond);
    assert cap as real <= ticksPerSecond;
    assert (cap / 2) as real <= ticksPerSecond / 2.0;
  }

  /**
   * A frame that ticks leaves the accumulator at one whole tick or more, since
   * the tick count is truncated from it and never subtracted from it; so
   * getPercentageToNextTick is not a fraction in [0, 1) after such a frame.
   * From two ticks a second up, the converse holds too.
   */
  lemma TickedFrameKeepsWholeTick(prev: TickState, deltaTime: real, timePerTick: real, ticksPerSecond: real)
    requires timePerTick > 0.0 && ticksPerSecond > 0.0
    ensures TickStep(prev, deltaTime, timePerTick, ticksPerSecond).ticksElapsed >= 1
            ==> TickStep(prev, deltaTime, timePerTick, ticksPerSecond).percentToNextTick >= 1.0
    ensures ticksPerSecond >= 2.0 && TickStep(prev, deltaTime, timePerTick, ticksPerSecond).percentToNextTick >= 1.0
            ==> TickStep(prev, deltaTime, timePerTick, ticksPerSecond).ticksElapsed >= 1
  {
    var next := TickStep(prev, deltaTime, timePerTick, ticksPerSecond);
    var cap := TruncToInt(ticksPerSecond);
    if ticksPerSecond >= 2.0 {
      assert cap >= 2;
    }
  }

  /** At 30 ticks a second from an empty accumulator: 34 ms is one tick, and a 10 s stall is capped at 15 ticks. */
  lemma ThirtyTpsExamples()
    ensures TickStep(TickState(0, 0.0), 34.0 / 1000.0, 1.0 / 30.0, 30.0) == TickState(1, 1.02)
    ensures TickStep(TickState(0, 0.0), 10000.0 / 1000.0, 1.0 / 30.0, 30.0) == TickState(15, 300.0)
  {
    assert (34.0 / 1000.0) / (1.0 / 30.0) == 1.02;
    assert TruncToInt(1.02) == 1;
    assert (10000.0 / 1000.0) / (1.0 / 30.0) == 300.0;
    assert TruncToInt(300.0) == 300;
    assert TruncToInt(30.0) == 30;
  }

  /** Each frame is counted once; a full second publishes the count and restarts it, carrying the remaining time. */
  lemma FpsCounting(prev: FpsState, deltaTime: real)
    ensures prev.timer + deltaTime >= 1.0 ==>
      FpsStep(prev, deltaTime) == FpsState(prev.timer + deltaTime - 1.0, 1, prev.frames)
    ensures prev.timer + deltaTime < 1.0 ==>
      FpsStep(prev, deltaTime) == FpsState(prev.timer + deltaTime, prev.frames + 1, prev.fps)
  {
  }

  /** The timer goes back below one second after a publishing frame whose delta is under a second. */
  lemma TimerStaysBelowOne(prev: FpsState, deltaTime: real)
    requires 0.0 <= prev.timer < 1.0 && 0.0 <= deltaTime < 1.0
    ensures 0.0 <= FpsStep(prev, deltaTime).timer < 1.0
  {
  }

  class TicksAndFps {
    var currentTime: int
    var lastTime: int
    var timer: real
    var fps: int
    var frames: int
    var deltaTime: real
    var ticksPerSecond: real
    var ticksElapsed: int
    var timePerTick: real
    var percentToNextTick: real

    ghost predicate Valid()
      reads this
    {
      ticksPerSecond > 0.0 && timePerTick == 1.0 / ticksPerSecond
    }

    /** The static field initialisers. */
    constructor ()
      ensures currentTime == 0 && lastTime == 0 && timer == 0.0 && fps == 1 && frames == 0
      ensures ticksElapsed == 0 && percentToNextTick == 0.0
    {
      currentTime, lastTime := 0, 0;
      timer := 0.0;
      fps, frames := 1, 0;
      deltaTime := 0.005;
      ticksPerSecond := 0.0;
      ticksElapsed := 0;
      timePerTick := 0.0;
      percentToNextTick := 0.0;
    }

    /** init: fixes the tick rate and the duration of one tick; `now` is the stopwatch reading. */
    method Init(tps: real, now: int)
      requires tps > 0.0
      modifies this`ticksPerSecond, this`timePerTick, this`lastTime
      ensures Valid() && ticksPerSecond == tps && timePerTick == 1.0 / tps
      ensures lastTime == now
    {
      ticksPerSecond := tps;
      timePerTick := 1.0 / ticksPerSecond;
      lastTime := now;
    }

    /** update: `now` is the stopwatch reading in milliseconds for this frame. */
    method Update(now: int)
      requires Valid()
      modifies this
      ensures Valid()
      ensures lastTime == old(currentTime) && currentTime == now
      ensures deltaTime == (now - old(currentTime)) as real / 1000.0
      ensures FpsState(timer, frames, fps) == FpsStep(FpsState(old(timer), old(frames), old(fps)), deltaTime)
      ensures TickState(ticksElapsed, percentToNextTick)
              == TickStep(TickState(old(ticksElapsed), old(percentToNextTick)), deltaTime, timePerTick, ticksPerSecond)
      ensures ticksPerSecond == old(ticksPerSecond) && timePerTick == old(timePerTick)
      ensures now >= old(currentTime) && old(percentToNextTick) >= 0.0 ==>
        0 <= ticksElapsed <= TruncToInt(ticksPerSecond) / 2 && percentToNextTick >= 0.0
    {
      lastTime := currentTime;
      currentTime := now;
      deltaTime := (currentTime - lastTime) as real / 1000.0;
      ghost var prev := TickState(ticksElapsed, percentToNextTick);
      UpdateFps();
      UpdateTicks();
      if deltaTime >= 0.0 && prev.percentToNextTick >= 0.0 {
        TickBounds(prev, deltaTime, timePerTick, ticksPerSecond);
        assert deltaTime / timePerTick >= 0.0;
      }
    }

    /** The "updating FPS" half of update(). */
    method UpdateFps()
      modifies this`timer, this`fps, this`frames
      ensures FpsState(timer, frames, fps) == FpsStep(FpsState(old(timer), old(frames), old(fps)), deltaTime)
    {
      timer := timer + deltaTime;
      if timer >= 1.0 {
        fps := frames;
        frames := 0;
        timer := timer - 1.0;
      }
      frames := frames + 1;
    }

    /** The "updating Ticks" half of update(). */
    method UpdateTicks()
      requires Valid()
      modifies this`ticksElapsed, this`percentToNextTick
      ensures TickState(ticksElapsed, percentToNextTick)
              == TickStep(TickState(old(ticksElapsed), old(percentToNextTick)), deltaTime, timePerTick, ticksPerSecond)
    {
      if ticksElapsed > 0 {
        ticksElapsed := 0;
        percentToNextTick := 0.0;
      }
      percentToNextTick := percentToNextTick + deltaTime / timePerTick;
      ticksElapsed := TruncToInt(percentToNextTick);
      if ticksElapsed as real > ticksPerSecond / 2.0 {
        ticksElapsed := TruncToInt(ticksPerSecond) / 2;
      }
    }

    function GetTicksElapsed(): (r: int)
      reads this
      ensures r == ticksElapsed
    {
      ticksElapsed
    }

    /**
     * getPercentageToNextTick: the accumulator itself. After every frame that
     * ticked it is 1 or more (TickedFrameKeepsWholeTick), not a fraction of a tick.
     */
    function GetPercentageToNextTick(): (r: real)
      reads this
      ensures r == percentToNextTick
    {
      percentToNextTick
    }
  }
}
