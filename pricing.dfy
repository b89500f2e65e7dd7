/** Pricing one time segment: the hours it lasts times the worklog's hourly
    rate, rounded to cents. Decimal arithmetic is taken as exact and the
    duration as whole seconds. */
module Pricing {
  import opened Wrappers
  import opened Models
  import opened Errors

  const SecondsPerHour: int := 3600

  /** `secs` seconds at `rate` cents an hour, rounded to the nearest cent
      with ties away from zero (Decimal's ROUND_HALF_UP). */
  function ProratedCents(secs: int, rate: Cents): Cents
  {
    var x := secs * rate;
    if x >= 0 then (2 * x + SecondsPerHour) / (2 * SecondsPerHour)
    else -((SecondsPerHour - 2 * x) / (2 * SecondsPerHour))
  }

  /** The rounding is to the nearest cent, ties away from zero: twice the
      exact value `secs * rate / 3600` lies within half a cent of the
      result, on the side of zero when it lies exactly half a cent off, and
      the result keeps the sign of the exact value. */
  lemma ProratedCentsRounds(secs: int, rate: Cents)
    ensures var c := ProratedCents(secs, rate);
            && (secs * rate >= 0 ==> 7200 * c - 3600 <= 2 * (secs * rate) < 7200 * c + 3600)
            && (secs * rate < 0 ==> 7200 * c - 3600 < 2 * (secs * rate) <= 7200 * c + 3600)
            && (secs * rate >= 0 ==> c >= 0)
            && (secs * rate <= 0 ==> c <= 0)
  {
  }

  /** What a segment is worth: nothing unless ACTIVE, otherwise its
      duration priced at `rate`. */
  function SegmentValue(seg: TimeSegment, rate: Cents): Cents
  {
    if seg.status != Active then 0
    else ProratedCents(seg.endTime - seg.startTime, rate)
  }

  /** A segment can be priced unless it is ACTIVE and ends before it starts. */
  predicate SegmentPriceable(seg: TimeSegment)
  {
    seg.status == Active ==> seg.startTime <= seg.endTime
  }

  /** The price of one segment, or an error for an ACTIVE segment that ends
      before it starts. */
  function Price(seg: TimeSegment, rate: Cents): (r: Result<Cents, Error>)
    ensures r.Failure? <==> seg.status == Active && seg.endTime < seg.startTime
    ensures r.Failure? <==> !SegmentPriceable(seg)
    ensures r.Failure? ==> r.error == NegativeDuration
    ensures r.Success? ==> r.value == SegmentValue(seg, rate)
    ensures seg.status != Active ==> r == Success(0)
  {
    if seg.status != Active then Success(0)
    else if seg.endTime - seg.startTime < 0 then Failure(NegativeDuration)
    else Success(ProratedCents(seg.endTime - seg.startTime, rate))
  }

  /** At a non-negative rate a price is never negative, and an ACTIVE
      segment's price is its duration in hours times the rate, to the
      nearest cent. */
  lemma PriceRounds(seg: TimeSegment, rate: Cents)
    requires Price(seg, rate).Success? && rate >= 0
    ensures Price(seg, rate).value >= 0
    ensures seg.status == Active ==>
      var secs := seg.endTime - seg.startTime;
      7200 * Price(seg, rate).value - 3600 <= 2 * (secs * rate) < 7200 * Price(seg, rate).value + 3600
  {
    if seg.status == Active {
      ProratedCentsRounds(seg.endTime - seg.startTime, rate);
    }
  }

  /** Worked examples: 1.5 hours at 20.00 is 30.00; 3601 seconds at 33.34
      is 33.35; half a cent rounds up, and away from zero below zero. The
      exact half cent of 3634 seconds at 9.00 (9.085) rounds up to 9.09. */
  lemma RoundingExamples()
    ensures ProratedCents(5400, 2000) == 3000
    ensures ProratedCents(3601, 3334) == 3335
    ensures ProratedCents(1800, 1) == 1
    ensures ProratedCents(1800, -1) == -1
    ensures ProratedCents(1799, 1) == 0
    ensures ProratedCents(3634, 900) == 909
  {
  }
}
