/**
  Flight-duration planning (app/lib/flightPlanning.ts): an estimate of the
  flight time from the distance, and the focus-session length chosen for a
  flight time from an ascending table of buckets.
*/
module FlightPlanning {

  const DefaultCruiseKmh: real := 900.0
  const DefaultTaxiMinutes: real := 45.0

  datatype Bucket = Bucket(maxFlightHours: real, focusMinutes: int)

  /** POMODORO_BUCKETS, in ascending order of their hour ceilings. */
  const PomodoroBuckets: seq<Bucket> := [
    Bucket(1.5, 25),
    Bucket(4.0, 45),
    Bucket(8.0, 60),
    Bucket(14.0, 90),
    Bucket(24.0, 120)
  ]

  /** JavaScript `Math.round`: the nearest integer, halves rounded up. */
  function Round(x: real): (r: int)
    ensures r as real - 0.5 <= x < r as real + 0.5
  {
    (x + 0.5).Floor
  }

  /** estimateFlightMinutes: cruise time in minutes plus taxi time, rounded. */
  function EstimateFlightMinutes(distanceKm: real, cruiseKmh: real := DefaultCruiseKmh,
                                 taxiMinutes: real := DefaultTaxiMinutes): (r: int)
    requires cruiseKmh != 0.0
    ensures var exact := distanceKm / cruiseKmh * 60.0 + taxiMinutes;
      r as real - 0.5 <= exact < r as real + 0.5
  {
    Round(distanceKm / cruiseKmh * 60.0 + taxiMinutes)
  }

  /** A zero distance still costs the default taxi time. */
  lemma ZeroDistanceIsTaxiTime()
    ensures EstimateFlightMinutes(0.0) == 45
  {
  }

  lemma {:induction false} RoundMonotone(x: real, y: real)
    requires x <= y
    ensures Round(x) <= Round(y)
  {
  }

  /** For a fixed positive cruise speed and taxi time, a longer distance never
      gives a shorter estimate. */
  lemma EstimateMonotone(d1: real, d2: real, cruiseKmh: real, taxiMinutes: real)
    requires cruiseKmh > 0.0 && d1 <= d2
    ensures EstimateFlightMinutes(d1, cruiseKmh, taxiMinutes) <= EstimateFlightMinutes(d2, cruiseKmh, taxiMinutes)
  {
    assert d1 / cruiseKmh <= d2 / cruiseKmh by {
      assert (d2 - d1) / cruiseKmh >= 0.0;
      assert d2 / cruiseKmh - d1 / cruiseKmh == (d2 - d1) / cruiseKmh;
    }
    RoundMonotone(d1 / cruiseKmh * 60.0 + taxiMinutes, d2 / cruiseKmh * 60.0 + taxiMinutes);
  }

  /** `buckets.find(entry => hours <= entry.maxFlightHours)` as an index from
      `from`, or -1 when no bucket fits. */
  function FindBucket(buckets: seq<Bucket>, hours: real, from: nat): (r: int)
    requires from <= |buckets|
    ensures r == -1 || from <= r < |buckets|
    ensures r == -1 <==> forall i :: from <= i < |buckets| ==> hours > buckets[i].maxFlightHours
    ensures r != -1 ==> hours <= buckets[r].maxFlightHours &&
                        forall i :: from <= i < r ==> hours > buckets[i].maxFlightHours
    decreases |buckets| - from
  {
    if from == |buckets| then -1
    else if hours <= buckets[from].maxFlightHours then from
    else FindBucket(buckets, hours, from + 1)
  }

  /** mapToFocusMinutes: the focus length of the first bucket whose ceiling is not
      exceeded, and the last bucket's when none fits. */
  function MapToFocusMinutes(flightMinutes: real): (r: int)
    ensures r in {25, 45, 60, 90, 120}
  {
    var i := FindBucket(PomodoroBuckets, flightMinutes / 60.0, 0);
    if i == -1 then PomodoroBuckets[|PomodoroBuckets| - 1].focusMinutes
    else PomodoroBuckets[i].focusMinutes
  }

  /** The result in closed form over the five hour ceilings. */
  lemma FocusMinutesByRange(flightMinutes: real)
    ensures MapToFocusMinutes(flightMinutes) ==
      if flightMinutes <= 90.0 then 25
      else if flightMinutes <= 240.0 then 45
      else if flightMinutes <= 480.0 then 60
      else if flightMinutes <= 840.0 then 90
      else 120
  {
    var h := flightMinutes / 60.0;
    assert flightMinutes <= 90.0 <==> h <= 1.5;
    assert flightMinutes <= 240.0 <==> h <= 4.0;
    assert flightMinutes <= 480.0 <==> h <= 8.0;
    assert flightMinutes <= 840.0 <==> h <= 14.0;
    assert flightMinutes <= 1440.0 <==> h <= 24.0;
    assert PomodoroBuckets[0].maxFlightHours == 1.5;
    assert PomodoroBuckets[1].maxFlightHours == 4.0;
    assert PomodoroBuckets[2].maxFlightHours == 8.0;
    assert PomodoroBuckets[3].maxFlightHours == 14.0;
    assert PomodoroBuckets[4].maxFlightHours == 24.0;
  }

  /** Bucket ceilings are inclusive, and flights past 24 hours clamp to 120. */
  lemma FocusMinutesBoundaries()
    ensures MapToFocusMinutes(0.0) == 25 && MapToFocusMinutes(-30.0) == 25
    ensures MapToFocusMinutes(50.0) == 25 && MapToFocusMinutes(200.0) == 45
    ensures MapToFocusMinutes(90.0) == 25 && MapToFocusMinutes(91.0) == 45
    ensures MapToFocusMinutes(240.0) == 45 && MapToFocusMinutes(241.0) == 60
    ensures MapToFocusMinutes(480.0) == 60 && MapToFocusMinutes(481.0) == 90
    ensures MapToFocusMinutes(840.0) == 90 && MapToFocusMinutes(841.0) == 120
    ensures MapToFocusMinutes(1440.0) == 120 && MapToFocusMinutes(1500.0) == 120
  {
    FocusMinutesByRange(0.0);
    FocusMinutesByRange(-30.0);
    FocusMinutesByRange(50.0);
    FocusMinutesByRange(200.0);
    FocusMinutesByRange(90.0);
    FocusMinutesByRange(91.0);
    FocusMinutesByRange(240.0);
    FocusMinutesByRange(241.0);
    FocusMinutesByRange(480.0);
    FocusMinutesByRange(481.0);
    FocusMinutesByRange(840.0);
    FocusMinutesByRange(841.0);
    FocusMinutesByRange(1440.0);
    FocusMinutesByRange(1500.0);
  }

  /** A longer flight never gets a shorter focus session. */
  lemma FocusMinutesMonotone(m1: real, m2: real)
    requires m1 <= m2
    ensures MapToFocusMinutes(m1) <= MapToFocusMinutes(m2)
  {
    FocusMinutesByRange(m1);
    FocusMinutesByRange(m2);
  }
}
