/**
 * The analog input channel of the PLC (code/ESP32/main/AnalogSensor.cpp):
 * its Modbus/MQTT name and the smoothing filter every reading goes
 * through. Readings are percentages; the filter's float arithmetic is
 * modelled with exact reals.
 *
 * The filter keeps a sum and a count. Until SAMPLESIZE readings have been
 * taken it is the plain mean of all readings; from then on each reading
 * replaces one "average" reading in the sum, so the result moves a fifth of
 * the way towards the new reading.
 */
module Analog {
  import opened Common

  const SAMPLESIZE := 5

  /** The filter's two variables: _rollingSum and _numberOfSummations. */
  datatype Filter = Filter(rollingSum: real, count: nat)

  const EMPTY := Filter(0.0, 0)

  ghost predicate Valid(f: Filter)
  {
    f.count <= SAMPLESIZE && (f.count == 0 ==> f.rollingSum == 0.0)
  }

  /** The current average, 0 before the first reading. */
  function Average(f: Filter): real
  {
    if f.count > 0 then f.rollingSum / f.count as real else 0.0
  }

  /** One call of AddReading: the new filter state; the value it returns is Average of that state. */
  function Step(f: Filter, v: real): (g: Filter)
    ensures g.count == if f.count < SAMPLESIZE then f.count + 1 else f.count
    ensures g.count >= 1
  {
    var currentAvg := Average(f);
    if f.count < SAMPLESIZE then Filter(f.rollingSum + v, f.count + 1)
    else Filter(f.rollingSum - currentAvg + v, f.count)
  }

  /** The filter after the readings `vs`, in order. */
  function Feed(f: Filter, vs: seq<real>): Filter
  {
    if vs == [] then f else Step(Feed(f, vs[..|vs| - 1]), vs[|vs| - 1])
  }

  /** Step keeps the count within the sample size. */
  lemma StepValid(f: Filter, v: real)
    requires Valid(f)
    ensures Valid(Step(f, v))
  {
  }

  lemma {:induction false} FeedValid(vs: seq<real>)
    ensures Valid(Feed(EMPTY, vs))
  {
    if vs != [] {
      FeedValid(vs[..|vs| - 1]);
      StepValid(Feed(EMPTY, vs[..|vs| - 1]), vs[|vs| - 1]);
    }
  }

  /** The count is the number of readings so far, capped at SAMPLESIZE. */
  lemma {:induction false} FeedCount(vs: seq<real>)
    ensures Feed(EMPTY, vs).count == if |vs| < SAMPLESIZE then |vs| else SAMPLESIZE
  {
    if vs != [] {
      FeedCount(vs[..|vs| - 1]);
    }
  }

  /** The first reading is returned unchanged. */
  lemma FirstReading(v: real)
    ensures Average(Step(EMPTY, v)) == v
  {
  }

  /** While the filter fills, the result is the plain mean of all readings. */
  function Sum(vs: seq<real>): real
  {
    if vs == [] then 0.0 else Sum(vs[..|vs| - 1]) + vs[|vs| - 1]
  }

  lemma {:induction false} FillingIsMean(vs: seq<real>)
    requires |vs| <= SAMPLESIZE
    ensures Feed(EMPTY, vs) == Filter(Sum(vs), |vs|)
  {
    if vs != [] {
      FillingIsMean(vs[..|vs| - 1]);
    }
  }

  /** Once full, each reading moves the average a fifth of the way towards it. */
  lemma FullStepMovesFifth(f: Filter, v: real)
    requires f.count == SAMPLESIZE
    ensures Average(Step(f, v)) == Average(f) + (v - Average(f)) / SAMPLESIZE as real
  {
  }

  /** Readings within [lo, hi] keep the sum within count * lo .. count * hi. */
  lemma StepBounded(f: Filter, v: real, lo: real, hi: real)
    requires Valid(f)
    requires f.count as real * lo <= f.rollingSum <= f.count as real * hi
    requires lo <= v <= hi
    ensures var g := Step(f, v);
            g.count as real * lo <= g.rollingSum <= g.count as real * hi
  {
    if f.count == SAMPLESIZE {
      var g := Step(f, v);
      assert g.rollingSum == f.rollingSum * 4.0 / 5.0 + v;
    }
  }

  /** The average never leaves the range of the readings that produced it. */
  lemma {:induction false} FeedWithinBounds(vs: seq<real>, lo: real, hi: real)
    requires |vs| > 0
    requires forall i :: 0 <= i < |vs| ==> lo <= vs[i] <= hi
    ensures lo <= Average(Feed(EMPTY, vs)) <= hi
  {
    FeedSumBounded(vs, lo, hi);
    FeedCount(vs);
    var f := Feed(EMPTY, vs);
    var n := f.count as real;
    assert n * lo <= f.rollingSum <= n * hi;
    assert n >= 1.0;
    DivideBounds(f.rollingSum, n, lo, hi);
  }

  lemma DivideBounds(s: real, n: real, lo: real, hi: real)
    requires n > 0.0 && n * lo <= s <= n * hi
    ensures lo <= s / n <= hi
  {
  }

  lemma {:induction false} FeedSumBounded(vs: seq<real>, lo: real, hi: real)
    requires forall i :: 0 <= i < |vs| ==> lo <= vs[i] <= hi
    ensures var f := Feed(EMPTY, vs);
            Valid(f) && f.count as real * lo <= f.rollingSum <= f.count as real * hi
  {
    if vs != [] {
      var init := vs[..|vs| - 1];
      FeedSumBounded(init, lo, hi);
      StepBounded(Feed(EMPTY, init), vs[|vs| - 1], lo, hi);
    }
  }

  /** A steady input reads back as exactly that value after every reading. */
  lemma {:induction false} SteadyInput(vs: seq<real>, c: real)
    requires |vs| > 0
    requires forall i :: 0 <= i < |vs| ==> vs[i] == c
    ensures Average(Feed(EMPTY, vs)) == c
  {
    FeedWithinBounds(vs, c, c);
  }

  /**
   * Not a sliding window: one reading of 10 followed by five of 0 still
   * reads 1.6, where the mean of the last five readings would be 0.
   */
  lemma NotASlidingWindow()
    ensures Average(Feed(EMPTY, [10.0, 0.0, 0.0, 0.0, 0.0, 0.0])) == 1.6
  {
    var vs := [10.0, 0.0, 0.0, 0.0, 0.0, 0.0];
    var w := vs[..5];
    assert w == [10.0, 0.0, 0.0, 0.0, 0.0];
    FillingIsMean(w);
    SumTenThenZeros();
    assert Feed(EMPTY, w) == Filter(10.0, 5);
    assert Feed(EMPTY, vs) == Step(Filter(10.0, 5), 0.0);
  }

  lemma SumTenThenZeros()
    ensures Sum([10.0, 0.0, 0.0, 0.0, 0.0]) == 10.0
  {
    assert [10.0, 0.0, 0.0, 0.0, 0.0][..4] == [10.0, 0.0, 0.0, 0.0];
    assert [10.0, 0.0, 0.0, 0.0][..3] == [10.0, 0.0, 0.0];
    assert [10.0, 0.0, 0.0][..2] == [10.0, 0.0];
    assert [10.0, 0.0][..1] == [10.0];
    assert [10.0][..0] == [];
  }

  /** The analog sensor object: its channel number and the filter's fields. */
  class AnalogSensor {
    var channel: int
    var rollingSum: real
    var numberOfSummations: int
    /** Logging counter of Level(); the filter does not use it. */
    var count: int

    function State(): Filter
      reads this
      requires numberOfSummations >= 0
    {
      Filter(rollingSum, numberOfSummations)
    }

    /** A new sensor has an empty filter. */
    constructor(channel: int)
      ensures this.channel == channel && count == 0
      ensures numberOfSummations == 0 && State() == EMPTY
    {
      this.channel := channel;
      count := 0;
      numberOfSummations := 0;
      rollingSum := 0.0;
    }

    /** The channel's name: "AI" followed by the channel number in decimal. */
    function Channel(): (name: string)
      reads this
      ensures |name| >= 3 && name[..2] == "AI"
      ensures channel >= 0 ==> forall i :: 2 <= i < |name| ==> '0' <= name[i] <= '9'
      ensures channel < 0 ==> name[2] == '-' && forall i :: 3 <= i < |name| ==> '0' <= name[i] <= '9'
    {
      "AI" + IntText(channel)
    }

    /** AddReading: take one reading into the filter and return the new average. */
    method AddReading(v: real) returns (average: real)
      requires numberOfSummations >= 0
      modifies this
      ensures numberOfSummations >= 0
      ensures State() == Step(old(State()), v)
      ensures average == Average(State())
      ensures channel == old(channel) && count == old(count)
    {
      var currentAvg := 0.0;
      if numberOfSummations > 0 {
        currentAvg := rollingSum / numberOfSummations as real;
      }
      if numberOfSummations < SAMPLESIZE {
        numberOfSummations := numberOfSummations + 1;
      } else {
        rollingSum := rollingSum - currentAvg;
      }
      rollingSum := rollingSum + v;
      average := rollingSum / numberOfSummations as real;
    }
  }

  /** Sensors on different channels publish under different names. */
  lemma ChannelNamesDistinct(a: AnalogSensor, b: AnalogSensor)
    requires a.channel != b.channel
    ensures a.Channel() != b.Channel()
  {
    if a.Channel() == b.Channel() {
      assert IntText(a.channel) == a.Channel()[2..] == b.Channel()[2..] == IntText(b.channel);
      IntTextInjective(a.channel, b.channel);
    }
  }
}
