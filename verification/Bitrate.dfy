/** The bitrate chart: the window of counter samples and the rates computed from it, with
    reals for `f64`. */
module Bitrate {
  import opened Outcomes

  const RATES_LEN := 1024
  const RATE_PERIOD := 4
  const CAPACITY := RATES_LEN + RATE_PERIOD + 1  // the window is trimmed before it grows
  const USIZE_RANGE := 0x1_0000_0000_0000_0000
  const I32_LIMIT := 0x8000_0000

  /** A sampling time and the `usize` counter of received bits. */
  datatype RawSample = Sample(time: real, bits: nat)

  type Sample = s: RawSample | s.bits < USIZE_RANGE witness RawSample.Sample(0.0, 0)

  datatype Rate = Rate(time: real, value: real)

  /** The wrapping difference of two `usize` counters. */
  function BitsDiff(now: Sample, before: Sample): nat {
    (now.bits - before.bits) % USIZE_RANGE
  }

  /** The rate at sample `i` over the last four steps, unless the difference does not fit
      an `i32` or no time has passed. */
  function RateAt(data: seq<Sample>, i: nat): Option<Rate>
    requires i < |data|
  {
    if i < RATE_PERIOD then
      None
    else
      var now, before := data[i], data[i - RATE_PERIOD];
      if BitsDiff(now, before) >= I32_LIMIT || now.time - before.time <= 0.0 then
        None
      else
        Some(Rate(now.time, BitsDiff(now, before) as real / (now.time - before.time)))
  }

  /** The rates at the first `n` samples. */
  function Rates(data: seq<Sample>, n: nat): (rs: seq<Rate>)
    requires n <= |data|
    ensures |rs| <= if n < RATE_PERIOD then 0 else n - RATE_PERIOD
  {
    if n == 0 then
      []
    else
      Rates(data, n - 1) + match RateAt(data, n - 1) case Some(r) => [r] case None => []
  }

  /** The newest samples, as many as the window holds. */
  function Window(samples: seq<Sample>): seq<Sample> {
    if |samples| <= CAPACITY then samples else samples[|samples| - CAPACITY..]
  }

  class Bitrate {
    var data: seq<Sample>
    var rates: seq<Rate>

    constructor ()
      ensures data == [] && rates == []
    {
      data, rates := [], [];
    }

    method CalculateRate()
      modifies this`rates
      ensures rates == Rates(data, |data|)
    {
      rates := [];
      for i := 0 to |data|
        invariant rates == Rates(data, i)
      {
        if i < RATE_PERIOD {
          continue;
        }
        var now, before := data[i], data[i - RATE_PERIOD];
        var bitsDiff := (now.bits - before.bits) % USIZE_RANGE;
        if bitsDiff >= I32_LIMIT {
          continue;
        }
        var duration := now.time - before.time;
        if duration > 0.0 {
          rates := rates + [Rate(now.time, bitsDiff as real / duration)];
        }
      }
    }

    /** One round of the sampling loop. */
    method Tick(sample: Sample)
      modifies this
      ensures data == (if |old(data)| > RATES_LEN + RATE_PERIOD then old(data)[1..] else old(data)) + [sample]
      ensures rates == Rates(data, |data|)
    {
      if |data| > RATES_LEN + RATE_PERIOD {
        data := data[1..];
      }
      data := data + [sample];
      CalculateRate();
    }
  }

  /** After any number of rounds the window holds the newest 1029 samples at most, and the
      chart at most 1025 points, the rates over that window. */
  method Sampling(samples: seq<Sample>) returns (data: seq<Sample>, rates: seq<Rate>)
    ensures data == Window(samples)
    ensures data == if |samples| <= 1029 then samples else samples[|samples| - 1029..]
    ensures samples != [] ==> rates == Rates(data, |data|)
    ensures |rates| <= 1025
  {
    hide RateAt, Rates;
    var bitrate := new Bitrate();
    for n := 0 to |samples|
      invariant bitrate.data == Window(samples[..n])
      invariant if n == 0 then bitrate.rates == [] else bitrate.rates == Rates(bitrate.data, |bitrate.data|)
    {
      assert samples[..n + 1] == samples[..n] + [samples[n]];
      bitrate.Tick(samples[n]);
    }
    assert samples[..|samples|] == samples;
    data, rates := bitrate.data, bitrate.rates;
  }

  // ---- What the rates mean --------------------------------------------------------------

  /** Increasing times and a counter that does not go back, over `data[from..last]`. */
  predicate Steady(data: seq<Sample>, from: nat, last: nat)
    requires last < |data|
  {
    forall j :: from < j <= last ==> data[j - 1].time < data[j].time && data[j - 1].bits <= data[j].bits
  }

  /** The rate of one step. */
  function StepRate(data: seq<Sample>, j: nat): real
    requires 0 < j < |data| && data[j - 1].time < data[j].time
  {
    (data[j].bits - data[j - 1].bits) as real / (data[j].time - data[j - 1].time)
  }

  lemma StepBound(data: seq<Sample>, j: nat, lo: real, hi: real)
    requires 0 < j < |data| && data[j - 1].time < data[j].time
    requires lo <= StepRate(data, j) <= hi
    ensures var d := data[j].time - data[j - 1].time;
            lo * d <= (data[j].bits - data[j - 1].bits) as real <= hi * d
  {
    var d, b := data[j].time - data[j - 1].time, (data[j].bits - data[j - 1].bits) as real;
    assert b == b / d * d;
    Scale(lo, b / d, d);
    Scale(b / d, hi, d);
  }

  lemma Scale(x: real, y: real, d: real)
    requires x <= y && d > 0.0
    ensures x * d <= y * d
  {
  }

  lemma Unscale(x: real, b: real, d: real)
    requires d > 0.0
    ensures x * d <= b ==> x <= b / d
    ensures b <= x * d ==> b / d <= x
  {
    var q := b / d;
    assert q * d == b;
    if x > q { assert (x - q) * d > 0.0; assert x * d > b; }
    if x < q { assert (q - x) * d > 0.0; assert x * d < b; }
  }

  lemma {:induction false} WindowBound(data: seq<Sample>, from: nat, last: nat, lo: real, hi: real)
    requires from <= last < |data| && Steady(data, from, last)
    requires forall j :: from < j <= last ==> lo <= StepRate(data, j) <= hi
    ensures data[from].bits <= data[last].bits && (from < last ==> data[from].time < data[last].time)
    ensures var d := data[last].time - data[from].time;
            lo * d <= (data[last].bits - data[from].bits) as real <= hi * d
    decreases last
  {
    if from < last {
      WindowBound(data, from, last - 1, lo, hi);
      StepBound(data, last, lo, hi);
      hide StepRate, Steady;
      var d, e := data[last - 1].time - data[from].time, data[last].time - data[last - 1].time;
      AddBounds(lo, hi, d, e, (data[last - 1].bits - data[from].bits) as real,
                (data[last].bits - data[last - 1].bits) as real);
      assert d + e == data[last].time - data[from].time;
    }
  }

  lemma AddBounds(lo: real, hi: real, d: real, e: real, x: real, y: real)
    requires lo * d <= x <= hi * d && lo * e <= y <= hi * e
    ensures lo * (d + e) <= x + y <= hi * (d + e)
  {
    assert lo * (d + e) == lo * d + lo * e && hi * (d + e) == hi * d + hi * e;
  }

  /** Over four steady steps a rate is shown exactly if the counter advanced by less than
      2^31, and it lies between any bounds of the four one-step rates, so between the
      smallest and the largest of them. */
  lemma RateBetweenSteps(data: seq<Sample>, i: nat, lo: real, hi: real)
    requires RATE_PERIOD <= i < |data| && Steady(data, i - RATE_PERIOD, i)
    requires forall j :: i - RATE_PERIOD < j <= i ==> lo <= StepRate(data, j) <= hi
    ensures RateAt(data, i).Some? <==> data[i].bits - data[i - RATE_PERIOD].bits < I32_LIMIT
    ensures RateAt(data, i).Some? ==> lo <= RateAt(data, i).value.value <= hi
  {
    var from := i - RATE_PERIOD;
    WindowBound(data, from, i, lo, hi);
    var d, b := data[i].time - data[from].time, (data[i].bits - data[from].bits) as real;
    assert BitsDiff(data[i], data[from]) == data[i].bits - data[from].bits;
    Unscale(lo, b, d);
    Unscale(hi, b, d);
  }

  /** What the rate at sample `i` stands for: rate times duration. */
  function ShownAt(data: seq<Sample>, i: nat): real
    requires RATE_PERIOD <= i < |data|
  {
    match RateAt(data, i)
    case Some(r) => r.value * (data[i].time - data[i - RATE_PERIOD].time)
    case None => 0.0
  }

  lemma ShownStride(data: seq<Sample>, i: nat)
    requires RATE_PERIOD <= i < |data| && Steady(data, i - RATE_PERIOD, i)
    ensures var b := data[i].bits - data[i - RATE_PERIOD].bits;
            b >= 0 && ShownAt(data, i) == if b < I32_LIMIT then b as real else 0.0
  {
    var from := i - RATE_PERIOD;
    Ordered(data, from, i);
    var d, b := data[i].time - data[from].time, data[i].bits - data[from].bits;
    assert BitsDiff(data[i], data[from]) == b;
    assert b as real / d * d == b as real;
  }

  /** Bits shown at stride 4 from sample `s`, summed over `m` rates. */
  function ShownBits(data: seq<Sample>, s: nat, m: nat): real
    requires s + RATE_PERIOD * m < |data|
  {
    if m == 0 then 0.0 else ShownBits(data, s, m - 1) + ShownAt(data, s + RATE_PERIOD * m)
  }

  /** Every stride of four steps advances the counter by less than 2^31. */
  predicate SmallStrides(data: seq<Sample>, s: nat, m: nat)
    requires s + RATE_PERIOD * m < |data|
  {
    forall q :: 0 < q <= m ==>
      data[s + RATE_PERIOD * q].bits - data[s + RATE_PERIOD * (q - 1)].bits < I32_LIMIT
  }

  /** No bit is counted twice, and none is lost exactly if every stride is small: over a
      steady stretch the bits shown at stride 4 then add up to what the counter advanced. */
  lemma {:induction false} BitsTelescope(data: seq<Sample>, s: nat, m: nat)
    requires s + RATE_PERIOD * m < |data| && Steady(data, s, s + RATE_PERIOD * m)
    ensures ShownBits(data, s, m) <= (data[s + RATE_PERIOD * m].bits - data[s].bits) as real
    ensures SmallStrides(data, s, m) <==>
            ShownBits(data, s, m) == (data[s + RATE_PERIOD * m].bits - data[s].bits) as real
  {
    if m > 0 {
      hide ShownAt;
      BitsTelescope(data, s, m - 1);
      var i := s + RATE_PERIOD * m;
      assert i - RATE_PERIOD == s + RATE_PERIOD * (m - 1);
      ShownStride(data, i);
      MoreStrides(data, s, m);
      hide SmallStrides, Steady;
    }
  }

  lemma MoreStrides(data: seq<Sample>, s: nat, m: nat)
    requires 0 < m && s + RATE_PERIOD * m < |data|
    ensures var i := s + RATE_PERIOD * m;
            SmallStrides(data, s, m) <==>
              SmallStrides(data, s, m - 1) && data[i].bits - data[i - RATE_PERIOD].bits < I32_LIMIT
  {
    assert s + RATE_PERIOD * m - RATE_PERIOD == s + RATE_PERIOD * (m - 1);
  }

  lemma {:induction false} Ordered(data: seq<Sample>, from: nat, last: nat)
    requires from <= last < |data| && Steady(data, from, last)
    ensures data[from].bits <= data[last].bits && (from < last ==> data[from].time < data[last].time)
    decreases last
  {
    if from < last { Ordered(data, from, last - 1); }
  }

  // ---- The chart ------------------------------------------------------------------------

  /** How many of the first `n` samples have a rate. */
  function Shown(data: seq<Sample>, n: nat): nat
    requires n <= |data|
  {
    if n == 0 then 0 else Shown(data, n - 1) + if RateAt(data, n - 1).Some? then 1 else 0
  }

  /** The chart holds the rate of every sample that has one, in the order of the samples, and
      nothing else. */
  lemma {:induction false} ChartIs(data: seq<Sample>, n: nat, i: nat)
    requires i < n <= |data|
    ensures |Rates(data, n)| == Shown(data, n)
    ensures Shown(data, i) <= Shown(data, n)
    ensures RateAt(data, i).Some? ==>
              Shown(data, i) < |Rates(data, n)| && Rates(data, n)[Shown(data, i)] == RateAt(data, i).value
  {
    hide RateAt;
    RatesCount(data, n - 1);
    if i < n - 1 { ChartIs(data, n - 1, i); }
  }

  lemma {:induction false} RatesCount(data: seq<Sample>, n: nat)
    requires n <= |data|
    ensures |Rates(data, n)| == Shown(data, n)
  {
    hide RateAt;
    if n > 0 { RatesCount(data, n - 1); }
  }

  /** A sample has a rate unless it is one of the first four, the counter advanced by 2^31 or
      more in the last four steps, or no time has passed in them. */
  lemma RateMeans(data: seq<Sample>, i: nat)
    requires i < |data|
    ensures RateAt(data, i).Some? ==> 4 <= i && data[i].time > data[i - 4].time
    ensures RateAt(data, i).None? <==>
            i < 4 || (data[i].bits - data[i - 4].bits) % 0x1_0000_0000_0000_0000 >= 0x8000_0000
            || data[i].time <= data[i - 4].time
    ensures RateAt(data, i).Some? ==>
              var r, bits := RateAt(data, i).value, (data[i].bits - data[i - 4].bits) % 0x1_0000_0000_0000_0000;
              && bits < 0x8000_0000 && r.time == data[i].time
              && r.value * (data[i].time - data[i - 4].time) == bits as real
  {
    if RateAt(data, i).Some? {
      var d, bits := data[i].time - data[i - 4].time, (data[i].bits - data[i - 4].bits) % 0x1_0000_0000_0000_0000;
      assert bits as real / d * d == bits as real;
    }
  }

  /** Every point of the chart stands at the time of some sample, and its value is the bits of
      the four steps before it by the time they took. */
  lemma {:induction false} PointIs(data: seq<Sample>, n: nat, j: nat) returns (i: nat)
    requires n <= |data| && j < |Rates(data, n)|
    ensures RATE_PERIOD <= i < n && RateAt(data, i) == Some(Rates(data, n)[j])
    ensures 4 <= i < n && Rates(data, n)[j].time == data[i].time && data[i].time > data[i - 4].time
    ensures var bits := (data[i].bits - data[i - 4].bits) % 0x1_0000_0000_0000_0000;
            bits < 0x8000_0000 && Rates(data, n)[j].value * (data[i].time - data[i - 4].time) == bits as real
  {
    hide RateAt;
    if j < |Rates(data, n - 1)| {
      i := PointIs(data, n - 1, j);
    } else {
      i := n - 1;
      RateMeans(data, i);
    }
  }

  /** So on a steady window every point of the chart lies between any bounds of the one-step
      rates. */
  lemma ChartBetweenSteps(data: seq<Sample>, lo: real, hi: real)
    requires data != [] && Steady(data, 0, |data| - 1)
    requires forall j :: 0 < j < |data| ==> lo <= StepRate(data, j) <= hi
    ensures forall j :: 0 <= j < |Rates(data, |data|)| ==> lo <= Rates(data, |data|)[j].value <= hi
  {
    hide RateAt, Rates, StepRate;
    forall j | 0 <= j < |Rates(data, |data|)| ensures lo <= Rates(data, |data|)[j].value <= hi {
      var i := PointIs(data, |data|, j);
      RateBetweenSteps(data, i, lo, hi);
    }
  }

  /** A steady window of five samples whose one point is left out: the counter advances by
      2^31 in the last step. */
  lemma PointLeftOut() returns (data: seq<Sample>)
    ensures |data| == RATE_PERIOD + 1 && Steady(data, 0, RATE_PERIOD)
    ensures data[RATE_PERIOD].bits - data[0].bits == I32_LIMIT && Rates(data, |data|) == []
  {
    data := [Sample(0.0, 0), Sample(1.0, 0), Sample(2.0, 0), Sample(3.0, 0), Sample(4.0, I32_LIMIT)];
    assert BitsDiff(data[4], data[0]) == I32_LIMIT;
    assert RateAt(data, 4) == None;
    assert Rates(data, 4) == [];
  }
}
