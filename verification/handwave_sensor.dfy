/**
  The ambient-display hand-wave detector: a proximity listener that emits a
  pulse when an object leaves the near field less than one second after it was
  last seen arriving. The two fields of the listener are the whole state.

  Sensor registration, the pulse itself and the settings read that enables the
  feature are outside the model: the setting is an input of each sample, and
  the pulse is an output.
 */
module HandwaveSensor {

  /** Largest Java `long`. */
  const LONG_MAX: int := 0x7FFF_FFFF_FFFF_FFFF

  /** A sensor timestamp in nanoseconds: a non-negative Java `long`. */
  type Nanos = t: int | 0 <= t <= LONG_MAX

  /** A wave must end less than one second (in nanoseconds) after it began. */
  const WAVE_WINDOW_NS: int := 1_000_000_000

  /** Whether the previous sample was near, and the timestamp the wave is measured from. */
  datatype WaveState = WaveState(sawNear: bool, waveTime: Nanos)

  /** The listener's fields as initialised. */
  const Initial: WaveState := WaveState(false, 0)

  /** A proximity reading: the distance value, the sensor's maximum range, the timestamp. */
  datatype Sample = Sample(value: real, maxRange: real, timestamp: Nanos)

  /** A reading is near when its value is below the sensor's maximum range. */
  predicate IsNear(s: Sample) {
    s.value < s.maxRange
  }

  /** The elapsed time since the wave began, as a Java `long` subtraction: both
      operands are non-negative longs, so the difference never wraps. */
  function Delta(st: WaveState, timestamp: Nanos): (d: int)
    ensures -LONG_MAX <= d <= LONG_MAX
    ensures d < WAVE_WINDOW_NS <==> timestamp < st.waveTime + WAVE_WINDOW_NS
  {
    timestamp - st.waveTime
  }

  /** A pulse is due when the feature is on and the wave ended within the window. */
  function ShouldPulse(st: WaveState, timestamp: Nanos, enabled: bool): (p: bool)
    ensures p <==> enabled && timestamp < st.waveTime + WAVE_WINDOW_NS
  {
    enabled && Delta(st, timestamp) < WAVE_WINDOW_NS
  }

  /** The state after a sample, and whether the sample pulsed. */
  datatype SensorResult = SensorResult(state: WaveState, pulse: bool)

  /** One proximity reading. A near-to-far transition may pulse and keeps the
      wave start; every other reading restarts the wave at its own timestamp.
      The near flag always ends as the reading's near-ness. */
  function OnSensorChanged(st: WaveState, s: Sample, enabled: bool): (r: SensorResult)
    ensures r.state.sawNear == IsNear(s)
    ensures r.pulse ==> st.sawNear && !IsNear(s)
    ensures st.sawNear && !IsNear(s) ==>
      && (r.pulse <==> enabled && s.timestamp - st.waveTime < WAVE_WINDOW_NS)
      && r.state.waveTime == st.waveTime
    ensures !(st.sawNear && !IsNear(s)) ==> r.state.waveTime == s.timestamp
  {
    var isNear := IsNear(s);
    if st.sawNear && !isNear then
      SensorResult(WaveState(isNear, st.waveTime), ShouldPulse(st, s.timestamp, enabled))
    else
      SensorResult(WaveState(isNear, s.timestamp), false)
  }

  /** A reading together with whether the feature was enabled when it arrived. */
  datatype Tick = Tick(sample: Sample, enabled: bool)

  /** The final state of a run, and whether each reading pulsed, in order. */
  datatype WaveRun = WaveRun(state: WaveState, pulses: seq<bool>)

  /** Feeds `ticks` to the listener in order, starting from `st`. */
  function Run(st: WaveState, ticks: seq<Tick>): (r: WaveRun)
    ensures |r.pulses| == |ticks|
    decreases |ticks|
  {
    if |ticks| == 0 then WaveRun(st, [])
    else
      var n := |ticks| - 1;
      var prev := Run(st, ticks[..n]);
      var step := OnSensorChanged(prev.state, ticks[n].sample, ticks[n].enabled);
      WaveRun(step.state, prev.pulses + [step.pulse])
  }

  /** Reference definition: reading `i` pulses when the reading before it was
      near, it is far, the feature is on, and less than the window separates
      the two timestamps. */
  predicate PulseAt(ticks: seq<Tick>, i: nat)
    requires i < |ticks|
  {
    && i > 0
    && IsNear(ticks[i - 1].sample)
    && !IsNear(ticks[i].sample)
    && ticks[i].enabled
    && ticks[i].sample.timestamp - ticks[i - 1].sample.timestamp < WAVE_WINDOW_NS
  }

  /** After any non-empty run the near flag is the last reading's near-ness,
      and while it is set the wave start is the last reading's timestamp. */
  lemma RunInvariant(st: WaveState, ticks: seq<Tick>)
    requires |ticks| > 0
    ensures var last := ticks[|ticks| - 1].sample;
      var r := Run(st, ticks).state;
      && r.sawNear == IsNear(last)
      && (r.sawNear ==> r.waveTime == last.timestamp)
  {
  }

  /** Over any run from the initial state, the listener pulses at exactly the
      readings the reference definition picks out: the pulse delta is the gap
      between the last near reading and the far reading after it. */
  lemma {:induction false} PulsesMatchReference(ticks: seq<Tick>)
    ensures var r := Run(Initial, ticks);
      forall i :: 0 <= i < |ticks| ==> r.pulses[i] == PulseAt(ticks, i)
    decreases |ticks|
  {
    if |ticks| > 0 {
      var n := |ticks| - 1;
      PulsesMatchReference(ticks[..n]);
      var prev := Run(Initial, ticks[..n]);
      var r := Run(Initial, ticks);
      assert r.pulses == prev.pulses + [OnSensorChanged(prev.state, ticks[n].sample, ticks[n].enabled).pulse];
      forall i | 0 <= i < n
        ensures r.pulses[i] == PulseAt(ticks, i)
      {
        assert ticks[..n][i] == ticks[i];
        if i > 0 {
          assert ticks[..n][i - 1] == ticks[i - 1];
        }
        assert PulseAt(ticks[..n], i) == PulseAt(ticks, i);
      }
      if n > 0 {
        RunInvariant(Initial, ticks[..n]);
        assert ticks[..n][n - 1] == ticks[n - 1];
      }
    }
  }

  /** From the initial state the first reading never pulses. */
  lemma FirstSampleNeverPulses(t: Tick)
    ensures Run(Initial, [t]).pulses == [false]
  {
    assert [t][..0] == [];
  }

  /** A near reading followed by a far one pulses exactly when the feature is on
      and the gap is under one second: a gap of exactly 1,000,000,000 ns does not. */
  lemma WaveWindowIsStrict(near: Sample, far: Sample, enabled: bool)
    requires IsNear(near) && !IsNear(far)
    ensures var st := OnSensorChanged(Initial, near, enabled).state;
      var pulse := OnSensorChanged(st, far, enabled).pulse;
      pulse <==> enabled && far.timestamp - near.timestamp < 1_000_000_000
    ensures far.timestamp == near.timestamp + 1_000_000_000 ==>
      !OnSensorChanged(OnSensorChanged(Initial, near, enabled).state, far, enabled).pulse
  {
  }
}
