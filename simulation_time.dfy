/**
 * The simulation clock (src/game/simulation_time.rs): a scaled copy of the
 * frame time that only advances while the simulation is running. `f32`
 * values are modelled as reals.
 */
module Clock {

  /** `SimulationState`; the default is `Running`. */
  datatype SimulationState = Running | Paused

  /** The three fields of `SimulationTime`, as a value. */
  datatype ClockValue = ClockValue(deltaSeconds: real, elapsed: real, scale: real)

  /** `SimulationTime::default()`. */
  const DefaultClock: ClockValue := ClockValue(0.0, 0.0, 1.0)

  /**
   * One frame of the `First` schedule: `update` runs only while the state is
   * `Running`; then the delta is the frame time `dt` times the scale and the
   * elapsed time grows by that delta.
   */
  function Step(c: ClockValue, state: SimulationState, dt: real): (r: ClockValue)
    ensures r.scale == c.scale
    ensures state == Paused ==> r == c
    ensures state == Running ==> r.deltaSeconds == dt * c.scale && r.elapsed - c.elapsed == r.deltaSeconds
  {
    match state
    case Paused => c
    case Running =>
      var delta := dt * c.scale;
      ClockValue(delta, c.elapsed + delta, c.scale)
  }

  /** The clock after a sequence of frames, each with its state and frame time. */
  function Run(c: ClockValue, frames: seq<(SimulationState, real)>): ClockValue
    decreases |frames|
  {
    if |frames| == 0 then c
    else Run(Step(c, frames[0].0, frames[0].1), frames[1..])
  }

  /** The sum of the scaled frame times of the running frames. */
  function RunningTime(frames: seq<(SimulationState, real)>, scale: real): real
    decreases |frames|
  {
    if |frames| == 0 then 0.0
    else (if frames[0].0 == Running then frames[0].1 * scale else 0.0) + RunningTime(frames[1..], scale)
  }

  /**
   * Over any sequence of frames the scale never changes, the elapsed time
   * grows by exactly the scaled time of the running frames, and with
   * non-negative frame times and scale it never decreases.
   */
  lemma {:induction false} RunAccumulates(c: ClockValue, frames: seq<(SimulationState, real)>)
    ensures Run(c, frames).scale == c.scale
    ensures Run(c, frames).elapsed == c.elapsed + RunningTime(frames, c.scale)
    ensures c.scale >= 0.0 && (forall i | 0 <= i < |frames| :: frames[i].1 >= 0.0) ==> Run(c, frames).elapsed >= c.elapsed
    decreases |frames|
  {
    if |frames| > 0 {
      var next := Step(c, frames[0].0, frames[0].1);
      RunAccumulates(next, frames[1..]);
      if c.scale >= 0.0 && (forall i | 0 <= i < |frames| :: frames[i].1 >= 0.0) {
        assert frames[0].1 >= 0.0;
        assert forall i | 0 <= i < |frames[1..]| :: frames[1..][i].1 >= 0.0 by {
          forall i | 0 <= i < |frames[1..]| ensures frames[1..][i].1 >= 0.0 {
            assert frames[1..][i] == frames[i + 1];
          }
        }
        assert next.elapsed >= c.elapsed by {
          if frames[0].0 == Running {
            assert frames[0].1 * c.scale >= 0.0;
          }
        }
      }
    }
  }

  /** While the simulation stays paused, the clock does not move at all. */
  lemma {:induction false} PausedFramesChangeNothing(c: ClockValue, frames: seq<(SimulationState, real)>)
    requires forall i | 0 <= i < |frames| :: frames[i].0 == Paused
    ensures Run(c, frames) == c
    decreases |frames|
  {
    if |frames| > 0 {
      assert forall i | 0 <= i < |frames[1..]| :: frames[1..][i] == frames[i + 1];
      PausedFramesChangeNothing(c, frames[1..]);
    }
  }

  /** The `SimulationTime` resource. */
  class SimulationTime {
    var deltaSeconds: real
    var elapsed: real
    var scale: real

    function Value(): ClockValue
      reads this
    {
      ClockValue(deltaSeconds, elapsed, scale)
    }

    /** `SimulationTime::default()`. */
    constructor Default()
      ensures Value() == DefaultClock
    {
      deltaSeconds, elapsed, scale := 0.0, 0.0, 1.0;
    }

    /** `delta_seconds()`. */
    function DeltaSeconds(): real
      reads this
    {
      deltaSeconds
    }

    /** `scale()`. */
    function Scale(): real
      reads this
    {
      scale
    }

    /** `elapsed()` (the `elapsed_seconds_f32()` the other systems read). */
    function Elapsed(): real
      reads this
    {
      elapsed
    }

    /** The `update` system: the delta becomes the frame time times the scale, and is added to the elapsed time. */
    method Update(dt: real)
      modifies this
      ensures Value() == Step(old(Value()), Running, dt)
    {
      deltaSeconds := dt * scale;
      elapsed := elapsed + deltaSeconds;
    }

    /** One frame: `update` runs only if the state is `Running`. */
    method Frame(state: SimulationState, dt: real)
      modifies this
      ensures Value() == Step(old(Value()), state, dt)
    {
      if state == Running {
        Update(dt);
      }
    }
  }
}
