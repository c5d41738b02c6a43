/**
 * The analytics pass over a list of fuel logs (`calculateAnalytics`): spend
 * and amount totals, the volume-weighted average price, the distance driven
 * and the fuel-efficiency series with its mean. The specification functions
 * describe each metric over a list, one record at a time from the front; the
 * method runs the source's loops and is proved to produce exactly them.
 */
module Analytics {
  import opened Wrappers
  import opened FuelLogs

  /** The `metrics` object: the two efficiency arrays are kept in parallel. */
  datatype Metrics = Metrics(
    totalSpend: real,
    totalAmount: real,
    totalDistance: int,
    efficiencyReadings: seq<real>,
    efficiencyDates: seq<int>,
    avgPrice: real,
    avgEfficiency: real)

  /** The metrics object as first built, and as returned for an empty list. */
  const ZeroMetrics := Metrics(0.0, 0.0, 0, [], [], 0.0, 0.0)

  // ---------------------------------------------------------------- totals

  /** The records that count towards spend and amount: all but the odometer-only ones, in order. */
  function FuelRecords(s: seq<FuelLog>): seq<FuelLog> {
    if |s| == 0 then []
    else
      var last := s[|s| - 1];
      FuelRecords(s[..|s| - 1]) + (if IsOdometerOnly(last) then [] else [last])
  }

  /** The records that count towards the average price: those with a positive price, in order. */
  function PricedRecords(s: seq<FuelLog>): seq<FuelLog> {
    if |s| == 0 then []
    else
      var last := s[|s| - 1];
      PricedRecords(s[..|s| - 1]) + (if last.price > 0.0 then [last] else [])
  }

  /** Sum of `totalCost`. */
  function Spend(s: seq<FuelLog>): real {
    if |s| == 0 then 0.0 else Spend(s[..|s| - 1]) + s[|s| - 1].totalCost
  }

  /** Sum of `amount`. */
  function Volume(s: seq<FuelLog>): real {
    if |s| == 0 then 0.0 else Volume(s[..|s| - 1]) + s[|s| - 1].amount
  }

  /** Total spend over total amount among priced records; 0 when that amount is not positive. */
  function AveragePrice(s: seq<FuelLog>): (r: real)
    ensures Volume(PricedRecords(s)) > 0.0 ==> r * Volume(PricedRecords(s)) == Spend(PricedRecords(s))
    ensures Volume(PricedRecords(s)) <= 0.0 ==> r == 0.0
  {
    var priced := PricedRecords(s);
    if Volume(priced) > 0.0 then Spend(priced) / Volume(priced) else 0.0
  }

  // ------------------------------------------------------ distance and fuel

  /** `logs.findIndex(log => log.odometer > 0)`. */
  function FirstReadingIndex(s: seq<FuelLog>): (r: Option<nat>)
    ensures r.Some? ==> r.value < |s| && s[r.value].odometer > 0 &&
                        forall k :: 0 <= k < r.value ==> s[k].odometer <= 0
    ensures r.None? ==> forall k :: 0 <= k < |s| ==> s[k].odometer <= 0
  {
    if |s| == 0 then None
    else if s[0].odometer > 0 then Some(0)
    else match FirstReadingIndex(s[1..])
      case None => None
      case Some(k) => Some(k + 1)
  }

  /** The running baseline after `s`: its last positive odometer reading, if any. */
  function LastReading(s: seq<FuelLog>): (r: Option<int>)
    ensures r.Some? ==> r.value > 0
  {
    if |s| == 0 then None
    else if s[|s| - 1].odometer > 0 then Some(s[|s| - 1].odometer)
    else LastReading(s[..|s| - 1])
  }

  /**
   * The distance `cur` adds after the records `prefix`: its rise over the
   * running baseline, or 0 when there is no baseline yet or no rise.
   */
  function Leg(prefix: seq<FuelLog>, cur: FuelLog): (d: int)
    ensures d >= 0
    ensures d > 0 <==> cur.odometer > 0 && LastReading(prefix).Some? && cur.odometer > LastReading(prefix).value
    ensures d > 0 ==> d == cur.odometer - LastReading(prefix).value
  {
    match LastReading(prefix)
    case None => 0
    case Some(lastOdometer) =>
      if cur.odometer > 0 && cur.odometer > lastOdometer then cur.odometer - lastOdometer else 0
  }

  /** `totalDistance`: the sum of the legs of every record of `s`. */
  function Distance(s: seq<FuelLog>): (d: int)
    ensures d >= 0
  {
    if |s| == 0 then 0 else Distance(s[..|s| - 1]) + Leg(s[..|s| - 1], s[|s| - 1])
  }

  /** The amount of the nearest record of `s`, from the end, with a positive amount; 0 if there is none. */
  function LastFill(s: seq<FuelLog>): (f: real)
    ensures f >= 0.0
  {
    if |s| == 0 then 0.0
    else if s[|s| - 1].amount > 0.0 then s[|s| - 1].amount
    else LastFill(s[..|s| - 1])
  }

  /** One point of the efficiency series: amount per 100 distance units, dated by the record that closed the leg. */
  datatype Reading = Reading(date: int, efficiency: real)

  /** Fuel used per 100 distance units: `(fuelUsed / distance) * 100`. */
  function Efficiency(fuelUsed: real, distance: int): (r: real)
    requires distance > 0
    ensures r * distance as real == fuelUsed * 100.0
  {
    fuelUsed / distance as real * 100.0
  }

  /** The reading, if any, that `cur` produces after the records `prefix`. */
  function ReadingAt(prefix: seq<FuelLog>, cur: FuelLog): seq<Reading> {
    var distance := Leg(prefix, cur);
    var fuelUsed := LastFill(prefix);
    if fuelUsed > 0.0 && distance > 0 then [Reading(cur.date, Efficiency(fuelUsed, distance))] else []
  }

  /** The efficiency series of `s`, in record order; every reading is positive. */
  function Series(s: seq<FuelLog>): seq<Reading> {
    if |s| == 0 then [] else Series(s[..|s| - 1]) + ReadingAt(s[..|s| - 1], s[|s| - 1])
  }

  function Efficiencies(r: seq<Reading>): (e: seq<real>)
    ensures |e| == |r|
  {
    seq(|r|, k requires 0 <= k < |r| => r[k].efficiency)
  }

  function Dates(r: seq<Reading>): (d: seq<int>)
    ensures |d| == |r|
  {
    seq(|r|, k requires 0 <= k < |r| => r[k].date)
  }

  /** `xs.reduce((a, b) => a + b, 0)`. */
  function SumReals(xs: seq<real>): real {
    if |xs| == 0 then 0.0 else SumReals(xs[..|xs| - 1]) + xs[|xs| - 1]
  }

  /** Arithmetic mean, 0 for no values. */
  function Mean(xs: seq<real>): (r: real)
    ensures |xs| > 0 ==> r * |xs| as real == SumReals(xs)
    ensures |xs| == 0 ==> r == 0.0
  {
    if |xs| == 0 then 0.0 else SumReals(xs) / |xs| as real
  }

  /** Every metric of `calculateAnalytics`, as a function of the list. */
  function AnalyticsOf(logs: seq<FuelLog>): Metrics {
    var fuel := FuelRecords(logs);
    var series := Series(logs);
    Metrics(Spend(fuel), Volume(fuel), Distance(logs), Efficiencies(series), Dates(series),
            AveragePrice(logs), Mean(Efficiencies(series)))
  }

  // ------------------------------------------------------- running state

  /** The running sums of the first loop: spend and amount, and the priced spend and amount. */
  datatype Totals = Totals(spend: real, amount: real, pricedSpend: real, pricedAmount: real)

  /** What one record adds to the running sums. */
  function AddToTotals(t: Totals, log: FuelLog): Totals {
    var t' := if IsOdometerOnly(log) then t
              else t.(spend := t.spend + log.totalCost, amount := t.amount + log.amount);
    if log.price > 0.0 then t'.(pricedSpend := t'.pricedSpend + log.totalCost, pricedAmount := t'.pricedAmount + log.amount)
    else t'
  }

  /** The running sums after the records of `s`, one at a time. */
  function TotalsOf(s: seq<FuelLog>): Totals {
    if |s| == 0 then Totals(0.0, 0.0, 0.0, 0.0) else AddToTotals(TotalsOf(s[..|s| - 1]), s[|s| - 1])
  }

  /**
   * The state of the second loop: the baseline odometer reading (none before
   * the first positive one), the distance so far and the two parallel arrays.
   */
  datatype Trip = Trip(lastOdometer: Option<int>, distance: int, readings: seq<real>, dates: seq<int>)

  /** What the record `cur` does to the trip state, given the last fill-up before it. */
  function AddToTrip(t: Trip, cur: FuelLog, fuelUsed: real): Trip {
    var next := if cur.odometer > 0 then Some(cur.odometer) else t.lastOdometer;
    match t.lastOdometer
    case None => t.(lastOdometer := next)
    case Some(lastOdometer) =>
      if cur.odometer > 0 && cur.odometer > lastOdometer then
        var distance := cur.odometer - lastOdometer;
        if fuelUsed > 0.0 && distance > 0 then
          Trip(next, t.distance + distance, t.readings + [Efficiency(fuelUsed, distance)], t.dates + [cur.date])
        else
          Trip(next, t.distance + distance, t.readings, t.dates)
      else
        t.(lastOdometer := next)
  }

  /** The trip state after the records of `s`, one at a time. */
  function TripOf(s: seq<FuelLog>): Trip {
    if |s| == 0 then Trip(None, 0, [], [])
    else AddToTrip(TripOf(s[..|s| - 1]), s[|s| - 1], LastFill(s[..|s| - 1]))
  }

  // ------------------------------------------------------------ the pass

  /**
   * `calculateAnalytics(logs)`: one pass for the totals, `findIndex` for the
   * first reading, then a pass over the later records with a backward scan
   * for the last fill-up, and the mean of the readings.
   */
  method CalculateAnalytics(logs: seq<FuelLog>) returns (metrics: Metrics)
    ensures metrics == AnalyticsOf(logs)
    ensures |logs| == 0 ==> metrics == ZeroMetrics
    ensures |metrics.efficiencyReadings| == |metrics.efficiencyDates|
    ensures metrics.totalDistance >= 0
  {
    metrics := ZeroMetrics;
    if |logs| == 0 {
      return;
    }

    var totalSpendForAvg, totalAmountForAvg := 0.0, 0.0;
    for k := 0 to |logs|
      invariant TotalsOf(logs[..k]) == Totals(metrics.totalSpend, metrics.totalAmount, totalSpendForAvg, totalAmountForAvg)
      invariant metrics.(totalSpend := 0.0, totalAmount := 0.0) == ZeroMetrics
    {
      var log := logs[k];
      assert logs[..k + 1][..k] == logs[..k];
      var isOdometerOnly := IsOdometerOnly(log);
      if !isOdometerOnly {
        metrics := metrics.(totalSpend := metrics.totalSpend + log.totalCost,
                            totalAmount := metrics.totalAmount + log.amount);
      }
      if log.price > 0.0 {
        totalSpendForAvg := totalSpendForAvg + log.totalCost;
        totalAmountForAvg := totalAmountForAvg + log.amount;
      }
    }
    assert logs[..|logs|] == logs;
    TotalsMeaning(logs);

    if totalAmountForAvg > 0.0 {
      metrics := metrics.(avgPrice := totalSpendForAvg / totalAmountForAvg);
    }

    var firstValidLogIndex := FirstReadingIndex(logs);
    if firstValidLogIndex.Some? {
      var totalDistance, efficiencyReadings, efficiencyDates := TrackDistance(logs, firstValidLogIndex.value);
      metrics := metrics.(totalDistance := totalDistance,
                          efficiencyReadings := efficiencyReadings,
                          efficiencyDates := efficiencyDates);
    } else {
      NoReadingsNoDistance(logs);
    }

    if |metrics.efficiencyReadings| > 0 {
      var sum := SumReals(metrics.efficiencyReadings);
      metrics := metrics.(avgEfficiency := sum / |metrics.efficiencyReadings| as real);
    }
  }

  /**
   * The `for i` loop of `calculateAnalytics`, from the record after the first
   * positive odometer reading: each rise over the running baseline is added
   * to the distance and, when some earlier record added fuel, yields an
   * efficiency reading dated by the record that closed the leg.
   */
  method TrackDistance(logs: seq<FuelLog>, first: nat)
    returns (totalDistance: int, efficiencyReadings: seq<real>, efficiencyDates: seq<int>)
    requires FirstReadingIndex(logs) == Some(first)
    ensures totalDistance == Distance(logs)
    ensures efficiencyReadings == Efficiencies(Series(logs))
    ensures efficiencyDates == Dates(Series(logs))
  {
    totalDistance, efficiencyReadings, efficiencyDates := 0, [], [];
    var lastOdometer := logs[first].odometer;
    FirstReadingTrip(logs, first);

    for i := first + 1 to |logs|
      invariant TripOf(logs[..i]) == Trip(Some(lastOdometer), totalDistance, efficiencyReadings, efficiencyDates)
    {
      var currentLog := logs[i];
      assert logs[..i + 1][..i] == logs[..i];

      if currentLog.odometer > 0 && currentLog.odometer > lastOdometer {
        var distance := currentLog.odometer - lastOdometer;
        totalDistance := totalDistance + distance;

        var fuelUsed := LastFillBefore(logs, i);
        if fuelUsed > 0.0 && distance > 0 {
          var efficiency := Efficiency(fuelUsed, distance);
          efficiencyReadings := efficiencyReadings + [efficiency];
          efficiencyDates := efficiencyDates + [currentLog.date];
        }
      }
      if currentLog.odometer > 0 {
        lastOdometer := currentLog.odometer;
      }
    }
    assert logs[..|logs|] == logs;
    TripMeaning(logs);
  }

  /**
   * The backward `for j` scan of `calculateAnalytics`: from the record before
   * index `i` down to the first record, the amount of the first record met
   * with a positive amount, or 0.
   */
  method LastFillBefore(logs: seq<FuelLog>, i: nat) returns (fuelUsed: real)
    requires i <= |logs|
    ensures fuelUsed == LastFill(logs[..i])
  {
    fuelUsed := 0.0;
    for j := i downto 0
      invariant LastFill(logs[..j]) == LastFill(logs[..i])
      invariant fuelUsed == 0.0
    {
      assert logs[..j + 1][..j] == logs[..j];
      var prevLog := logs[j];
      if prevLog.amount > 0.0 {
        fuelUsed := prevLog.amount;
        break;
      }
    }
  }

  // ------------------------------------- running state against the metrics

  /** Appending a record adds its cost and amount to the sums. */
  lemma SumsStep(s: seq<FuelLog>, x: FuelLog)
    ensures Spend(s + [x]) == Spend(s) + x.totalCost
    ensures Volume(s + [x]) == Volume(s) + x.amount
  {
    assert (s + [x])[..|s|] == s;
  }

  /** The last record of `s` adds its cost and amount to the totals unless it is odometer-only. */
  lemma FuelTotalsLast(s: seq<FuelLog>)
    requires |s| > 0
    ensures Spend(FuelRecords(s)) ==
            Spend(FuelRecords(s[..|s| - 1])) + (if IsOdometerOnly(s[|s| - 1]) then 0.0 else s[|s| - 1].totalCost)
    ensures Volume(FuelRecords(s)) ==
            Volume(FuelRecords(s[..|s| - 1])) + (if IsOdometerOnly(s[|s| - 1]) then 0.0 else s[|s| - 1].amount)
  {
    var x := s[|s| - 1];
    var f := FuelRecords(s[..|s| - 1]);
    if IsOdometerOnly(x) {
      assert FuelRecords(s) == f + [];
      assert f + [] == f;
    } else {
      assert FuelRecords(s) == f + [x];
      SumsStep(f, x);
    }
  }

  /** The last record of `s` adds its cost and amount to the priced totals when its price is positive. */
  lemma PricedTotalsLast(s: seq<FuelLog>)
    requires |s| > 0
    ensures Spend(PricedRecords(s)) ==
            Spend(PricedRecords(s[..|s| - 1])) + (if s[|s| - 1].price > 0.0 then s[|s| - 1].totalCost else 0.0)
    ensures Volume(PricedRecords(s)) ==
            Volume(PricedRecords(s[..|s| - 1])) + (if s[|s| - 1].price > 0.0 then s[|s| - 1].amount else 0.0)
  {
    var x := s[|s| - 1];
    var f := PricedRecords(s[..|s| - 1]);
    if x.price > 0.0 {
      assert PricedRecords(s) == f + [x];
      SumsStep(f, x);
    } else {
      assert PricedRecords(s) == f + [];
      assert f + [] == f;
    }
  }

  /** One step of `TotalsMeaning`: if the running sums match the metrics before the last record, they match after it. */
  lemma TotalsMeaningStep(s: seq<FuelLog>)
    requires |s| > 0
    requires TotalsOf(s[..|s| - 1]) == Totals(Spend(FuelRecords(s[..|s| - 1])), Volume(FuelRecords(s[..|s| - 1])),
                                              Spend(PricedRecords(s[..|s| - 1])), Volume(PricedRecords(s[..|s| - 1])))
    ensures TotalsOf(s) == Totals(Spend(FuelRecords(s)), Volume(FuelRecords(s)),
                                  Spend(PricedRecords(s)), Volume(PricedRecords(s)))
  {
    FuelTotalsLast(s);
    PricedTotalsLast(s);
  }

  /** The running sums of the first loop are the spend and amount of the fuel records and of the priced records. */
  lemma {:induction false} TotalsMeaning(s: seq<FuelLog>)
    ensures TotalsOf(s) == Totals(Spend(FuelRecords(s)), Volume(FuelRecords(s)),
                                  Spend(PricedRecords(s)), Volume(PricedRecords(s)))
  {
    if |s| > 0 {
      TotalsMeaning(s[..|s| - 1]);
      TotalsMeaningStep(s);
    }
  }

  lemma EfficienciesAppend(r: seq<Reading>, t: seq<Reading>)
    ensures Efficiencies(r + t) == Efficiencies(r) + Efficiencies(t)
    ensures Dates(r + t) == Dates(r) + Dates(t)
  {
  }

  /** One step of `TripMeaning`. */
  lemma TripMeaningStep(s: seq<FuelLog>)
    requires |s| > 0
    requires TripOf(s[..|s| - 1]) ==
             Trip(LastReading(s[..|s| - 1]), Distance(s[..|s| - 1]),
                  Efficiencies(Series(s[..|s| - 1])), Dates(Series(s[..|s| - 1])))
    ensures TripOf(s) == Trip(LastReading(s), Distance(s), Efficiencies(Series(s)), Dates(Series(s)))
  {
    var p, x := s[..|s| - 1], s[|s| - 1];
    TripFunctionsLast(s);
    AddToTripStep(TripOf(p), p, x);
    EfficienciesAppend(Series(p), ReadingAt(p, x));
  }

  /** The specification functions of the trip, unfolded at the last record. */
  lemma TripFunctionsLast(s: seq<FuelLog>)
    requires |s| > 0
    ensures TripOf(s) == AddToTrip(TripOf(s[..|s| - 1]), s[|s| - 1], LastFill(s[..|s| - 1]))
    ensures LastReading(s) == if s[|s| - 1].odometer > 0 then Some(s[|s| - 1].odometer) else LastReading(s[..|s| - 1])
    ensures Distance(s) == Distance(s[..|s| - 1]) + Leg(s[..|s| - 1], s[|s| - 1])
    ensures Series(s) == Series(s[..|s| - 1]) + ReadingAt(s[..|s| - 1], s[|s| - 1])
  {
  }

  /** What one record does to a trip state whose baseline is that of the records before it. */
  lemma AddToTripStep(t: Trip, p: seq<FuelLog>, x: FuelLog)
    requires t.lastOdometer == LastReading(p)
    ensures AddToTrip(t, x, LastFill(p)) ==
            Trip(if x.odometer > 0 then Some(x.odometer) else t.lastOdometer, t.distance + Leg(p, x),
                 t.readings + Efficiencies(ReadingAt(p, x)), t.dates + Dates(ReadingAt(p, x)))
  {
    var reading := ReadingAt(p, x);
    if reading == [] {
      assert Efficiencies(reading) == [] && Dates(reading) == [];
      assert t.readings + [] == t.readings && t.dates + [] == t.dates;
    } else {
      assert Efficiencies(reading) == [reading[0].efficiency] && Dates(reading) == [reading[0].date];
    }
  }

  /**
   * The state of the second loop is the running baseline, the sum of the
   * legs and the efficiency series of the records seen.
   */
  lemma {:induction false} TripMeaning(s: seq<FuelLog>)
    ensures TripOf(s) == Trip(LastReading(s), Distance(s), Efficiencies(Series(s)), Dates(Series(s)))
  {
    if |s| > 0 {
      TripMeaning(s[..|s| - 1]);
      TripMeaningStep(s);
    }
  }

  /** Before any positive odometer reading the trip state is still the initial one. */
  lemma {:induction false} NoReadingsTrip(s: seq<FuelLog>)
    requires forall k :: 0 <= k < |s| ==> s[k].odometer <= 0
    ensures TripOf(s) == Trip(None, 0, [], [])
  {
    if |s| > 0 {
      NoReadingsTrip(s[..|s| - 1]);
    }
  }

  /** Where the second loop starts: the first reading becomes the baseline and nothing has been accumulated. */
  lemma FirstReadingTrip(logs: seq<FuelLog>, first: nat)
    requires FirstReadingIndex(logs) == Some(first)
    ensures TripOf(logs[..first + 1]) == Trip(Some(logs[first].odometer), 0, [], [])
  {
    NoReadingsTrip(logs[..first]);
    assert logs[..first + 1][..first] == logs[..first];
  }

  /** With no positive odometer reading there is no baseline, no distance and no efficiency reading. */
  lemma {:induction false} NoReadingsNoDistance(s: seq<FuelLog>)
    requires forall k :: 0 <= k < |s| ==> s[k].odometer <= 0
    ensures LastReading(s) == None && Distance(s) == 0 && Series(s) == []
  {
    if |s| > 0 {
      NoReadingsNoDistance(s[..|s| - 1]);
    }
  }

  // ------------------------------------------------------------- properties

  /** The spend and amount totals take exactly the records that are not odometer-only, in their order. */
  lemma {:induction false} FuelRecordsExactly(s: seq<FuelLog>)
    ensures forall x :: multiset(FuelRecords(s))[x] == if IsOdometerOnly(x) then 0 else multiset(s)[x]
    ensures forall x :: x in FuelRecords(s) <==> x in s && !IsOdometerOnly(x)
    ensures |FuelRecords(s)| <= |s|
  {
    if |s| > 0 {
      FuelRecordsExactly(s[..|s| - 1]);
      FuelRecordsStep(s);
    }
    FuelRecordsMembers(s);
  }

  /** One step of `FuelRecordsExactly`: the last record is counted unless it is odometer-only. */
  lemma FuelRecordsStep(s: seq<FuelLog>)
    requires |s| > 0
    requires forall x :: multiset(FuelRecords(s[..|s| - 1]))[x] ==
                         if IsOdometerOnly(x) then 0 else multiset(s[..|s| - 1])[x]
    requires |FuelRecords(s[..|s| - 1])| <= |s| - 1
    ensures forall x :: multiset(FuelRecords(s))[x] == if IsOdometerOnly(x) then 0 else multiset(s)[x]
    ensures |FuelRecords(s)| <= |s|
  {
    var p, last := s[..|s| - 1], s[|s| - 1];
    assert s == p + [last];
    assert FuelRecords(s) == FuelRecords(p) + (if IsOdometerOnly(last) then [] else [last]);
  }

  /** Membership follows from the counts. */
  lemma FuelRecordsMembers(s: seq<FuelLog>)
    requires forall x :: multiset(FuelRecords(s))[x] == if IsOdometerOnly(x) then 0 else multiset(s)[x]
    ensures forall x :: x in FuelRecords(s) <==> x in s && !IsOdometerOnly(x)
  {
    forall x
      ensures x in FuelRecords(s) <==> x in s && !IsOdometerOnly(x)
    {
      assert x in FuelRecords(s) <==> multiset(FuelRecords(s))[x] > 0;
    }
  }

  /** The average-price sums take exactly the records with a positive price. */
  lemma {:induction false} PricedRecordsExactly(s: seq<FuelLog>)
    ensures forall x :: multiset(PricedRecords(s))[x] == if x.price > 0.0 then multiset(s)[x] else 0
    ensures forall x :: x in PricedRecords(s) <==> x in s && x.price > 0.0
  {
    if |s| > 0 {
      var p, last := s[..|s| - 1], s[|s| - 1];
      PricedRecordsExactly(p);
      assert s == p + [last];
      assert multiset(s) == multiset(p) + multiset{last};
      assert PricedRecords(s) == PricedRecords(p) + (if last.price > 0.0 then [last] else []);
    }
  }

  /**
   * Leaving out the odometer-only records does not change the totals: they
   * carry no cost and no amount. (They are left out so that they are not
   * counted as fill-ups.)
   */
  lemma {:induction false} FuelTotalsCoverEveryRecord(s: seq<FuelLog>)
    ensures Spend(FuelRecords(s)) == Spend(s)
    ensures Volume(FuelRecords(s)) == Volume(s)
  {
    if |s| > 0 {
      FuelTotalsCoverEveryRecord(s[..|s| - 1]);
      CoverStep(s);
    }
  }

  lemma CoverStep(s: seq<FuelLog>)
    requires |s| > 0
    requires Spend(FuelRecords(s[..|s| - 1])) == Spend(s[..|s| - 1])
    requires Volume(FuelRecords(s[..|s| - 1])) == Volume(s[..|s| - 1])
    ensures Spend(FuelRecords(s)) == Spend(s)
    ensures Volume(FuelRecords(s)) == Volume(s)
  {
    FuelTotalsLast(s);
  }

  /** A record whose cost is its price times its amount, at a price within [lo, hi]. */
  predicate PaidWithin(x: FuelLog, lo: real, hi: real) {
    x.amount >= 0.0 && x.totalCost == x.price * x.amount && lo <= x.price <= hi
  }

  /** Every record of `s` was paid at a price within [lo, hi], its cost being price times amount. */
  predicate AllPaidWithin(s: seq<FuelLog>, lo: real, hi: real) {
    forall k :: 0 <= k < |s| ==> PaidWithin(s[k], lo, hi)
  }

  /** The spend of `s` lies between `lo` and `hi` times its volume. */
  predicate SpendBounded(s: seq<FuelLog>, lo: real, hi: real) {
    lo * Volume(s) <= Spend(s) <= hi * Volume(s)
  }

  /** When every cost is price times amount, the spend lies between the lowest and highest price times the volume. */
  lemma {:induction false} SpendWithinPrices(s: seq<FuelLog>, lo: real, hi: real)
    requires AllPaidWithin(s, lo, hi)
    ensures SpendBounded(s, lo, hi)
  {
    if |s| > 0 {
      var p, x := s[..|s| - 1], s[|s| - 1];
      assert forall k :: 0 <= k < |p| ==> p[k] == s[k];
      SpendWithinPrices(p, lo, hi);
      SpendWithinPricesLast(s, lo, hi);
    }
  }

  lemma SpendWithinPricesLast(s: seq<FuelLog>, lo: real, hi: real)
    requires |s| > 0 && PaidWithin(s[|s| - 1], lo, hi)
    requires SpendBounded(s[..|s| - 1], lo, hi)
    ensures SpendBounded(s, lo, hi)
  {
    var p, x := s[..|s| - 1], s[|s| - 1];
    SpendWithinPricesStep(Spend(p), Volume(p), x.price, x.amount, x.totalCost, Spend(s), Volume(s), lo, hi);
  }

  lemma SpendWithinPricesStep(spend: real, volume: real, price: real, amount: real, cost: real,
                              spend': real, volume': real, lo: real, hi: real)
    requires lo * volume <= spend <= hi * volume
    requires amount >= 0.0 && lo <= price <= hi && cost == price * amount
    requires spend' == spend + cost && volume' == volume + amount
    ensures lo * volume' <= spend' <= hi * volume'
  {
    ScaleBetween(lo, price, hi, amount);
  }

  lemma ScaleBetween(lo: real, p: real, hi: real, a: real)
    requires a >= 0.0 && lo <= p <= hi
    ensures lo * a <= p * a <= hi * a
  {
  }

  /** Every record with a positive price was paid at a price within [lo, hi], its cost being price times amount. */
  predicate PricesWithin(s: seq<FuelLog>, lo: real, hi: real) {
    forall k :: 0 <= k < |s| && s[k].price > 0.0 ==> PaidWithin(s[k], lo, hi)
  }

  /**
   * `avgPrice` is volume-weighted: when every priced record's cost is its
   * price times its amount, the average lies between the lowest and the
   * highest price paid.
   */
  lemma AveragePriceWithinPrices(s: seq<FuelLog>, lo: real, hi: real)
    requires PricesWithin(s, lo, hi)
    requires Volume(PricedRecords(s)) > 0.0
    ensures lo <= AveragePrice(s) <= hi
  {
    PricedSpendWithinPrices(s, lo, hi);
    AverageOfBoundedSpend(s, lo, hi);
  }

  lemma AverageOfBoundedSpend(s: seq<FuelLog>, lo: real, hi: real)
    requires SpendBounded(PricedRecords(s), lo, hi)
    requires Volume(PricedRecords(s)) > 0.0
    ensures lo <= AveragePrice(s) <= hi
  {
    var priced := PricedRecords(s);
    QuotientBetween(Spend(priced), Volume(priced), lo, hi);
  }

  lemma PricedSpendWithinPrices(s: seq<FuelLog>, lo: real, hi: real)
    requires PricesWithin(s, lo, hi)
    ensures SpendBounded(PricedRecords(s), lo, hi)
  {
    PricedRecordsPaidWithin(s, lo, hi);
    SpendWithinPrices(PricedRecords(s), lo, hi);
  }

  lemma PricedRecordsPaidWithin(s: seq<FuelLog>, lo: real, hi: real)
    requires PricesWithin(s, lo, hi)
    ensures AllPaidWithin(PricedRecords(s), lo, hi)
  {
    var priced := PricedRecords(s);
    PricedRecordsExactly(s);
    forall k | 0 <= k < |priced|
      ensures PaidWithin(priced[k], lo, hi)
    {
      assert priced[k] in s;
    }
  }

  lemma QuotientBetween(num: real, den: real, lo: real, hi: real)
    requires den > 0.0 && lo * den <= num <= hi * den
    ensures lo <= num / den <= hi
  {
    assert num == (num / den) * den;
  }

  /** There is a baseline exactly when some record has a positive odometer reading. */
  lemma {:induction false} BaselineIffReading(s: seq<FuelLog>)
    ensures LastReading(s).None? <==> forall k :: 0 <= k < |s| ==> s[k].odometer <= 0
  {
    if |s| > 0 {
      BaselineIffReading(s[..|s| - 1]);
      if s[|s| - 1].odometer <= 0 {
        assert forall k :: 0 <= k < |s| - 1 ==> s[..|s| - 1][k] == s[k];
      }
    }
  }

  /** The baseline is the latest positive reading, even when it is lower than an earlier one. */
  lemma {:induction false} BaselineFollowsLatestReading(s: seq<FuelLog>, k: nat)
    requires k < |s| && s[k].odometer > 0
    requires forall j :: k < j < |s| ==> s[j].odometer <= 0
    ensures LastReading(s) == Some(s[k].odometer)
  {
    if k < |s| - 1 {
      BaselineFollowsLatestReading(s[..|s| - 1], k);
    }
  }

  /** A lower reading resets the baseline: readings 100, 50, 80 cover a distance of 30, not 0. */
  lemma DistanceAfterDip(a: FuelLog, b: FuelLog, c: FuelLog)
    requires a.odometer == 100 && b.odometer == 50 && c.odometer == 80
    ensures Distance([a, b, c]) == 30
  {
    assert [a, b, c][..2] == [a, b];
    assert [a, b][..1] == [a];
    assert [a][..0] == [];
    assert LastReading([a]) == Some(100) && Distance([a]) == 0;
    assert LastReading([a, b]) == Some(50) && Distance([a, b]) == 0;
    assert Leg([a, b], c) == 30;
  }

  /**
   * The distance is at least the net rise from any positive reading to the
   * final baseline: only rises are added, and each rise is measured from
   * the latest reading.
   */
  lemma {:induction false} DistanceCoversNetRise(s: seq<FuelLog>, k: nat)
    requires k < |s| && s[k].odometer > 0
    ensures LastReading(s).Some?
    ensures Distance(s) >= LastReading(s).value - s[k].odometer
  {
    var p := s[..|s| - 1];
    if k == |s| - 1 {
    } else {
      DistanceCoversNetRise(p, k);
    }
  }

  /** For strictly increasing positive readings the distance is the last reading minus the first. */
  lemma {:induction false} IncreasingReadingsDistance(s: seq<FuelLog>)
    requires |s| > 0
    requires forall k :: 0 <= k < |s| ==> s[k].odometer > 0
    requires forall k :: 0 < k < |s| ==> s[k - 1].odometer < s[k].odometer
    ensures Distance(s) == s[|s| - 1].odometer - s[0].odometer
  {
    if |s| > 1 {
      var p := s[..|s| - 1];
      IncreasingReadingsDistance(p);
    }
  }

  /**
   * The backward scan finds the nearest earlier record with a positive
   * amount: the scan result is that record's amount, and is 0 exactly when
   * there is none.
   */
  lemma {:induction false} LastFillIsNearest(s: seq<FuelLog>, k: nat)
    requires k < |s| && s[k].amount > 0.0
    requires forall j :: k < j < |s| ==> s[j].amount <= 0.0
    ensures LastFill(s) == s[k].amount
  {
    if k < |s| - 1 {
      LastFillIsNearest(s[..|s| - 1], k);
    }
  }

  lemma {:induction false} NoFillNoFuel(s: seq<FuelLog>)
    ensures LastFill(s) == 0.0 <==> forall j :: 0 <= j < |s| ==> s[j].amount <= 0.0
  {
    if |s| > 0 {
      NoFillNoFuel(s[..|s| - 1]);
      if s[|s| - 1].amount <= 0.0 {
        assert forall j :: 0 <= j < |s| - 1 ==> s[..|s| - 1][j] == s[j];
      }
    }
  }

  /** Every efficiency reading is positive, and the first record never yields one. */
  lemma {:induction false} SeriesPositive(s: seq<FuelLog>)
    ensures forall k :: 0 <= k < |Series(s)| ==> Series(s)[k].efficiency > 0.0
    ensures |s| > 0 ==> |Series(s)| < |s|
  {
    if |s| > 0 {
      var p := s[..|s| - 1];
      SeriesPositive(p);
      var r := ReadingAt(p, s[|s| - 1]);
      if r != [] {
        EfficiencyPositive(LastFill(p), Leg(p, s[|s| - 1]));
      }
      assert Series(s) == Series(p) + r;
    }
  }

  lemma EfficiencyPositive(fuelUsed: real, distance: int)
    requires fuelUsed > 0.0 && distance > 0
    ensures Efficiency(fuelUsed, distance) > 0.0
  {
    assert fuelUsed / distance as real > 0.0;
  }

  /**
   * The regular case: every record adds fuel and the readings strictly
   * increase. Then every record after the first yields one reading, dated
   * by that record, with the previous record's amount over the rise.
   */
  lemma {:induction false} RegularSeries(s: seq<FuelLog>)
    requires |s| > 0
    requires forall k :: 0 <= k < |s| ==> s[k].amount > 0.0 && s[k].odometer > 0
    requires forall k :: 0 < k < |s| ==> s[k - 1].odometer < s[k].odometer
    ensures |Series(s)| == |s| - 1
    ensures forall k :: 0 <= k < |s| - 1 ==>
              Series(s)[k] == Reading(s[k + 1].date, Efficiency(s[k].amount, s[k + 1].odometer - s[k].odometer))
  {
    var p := s[..|s| - 1];
    if |s| > 1 {
      RegularSeries(p);
      var x, y := p[|p| - 1], s[|s| - 1];
      RegularReadingAt(p, y);
      assert Series(s) == Series(p) + [Reading(y.date, Efficiency(x.amount, y.odometer - x.odometer))];
      forall k | 0 <= k < |s| - 1
        ensures Series(s)[k] == Reading(s[k + 1].date, Efficiency(s[k].amount, s[k + 1].odometer - s[k].odometer))
      {
        if k < |p| - 1 {
          assert s[k] == p[k] && s[k + 1] == p[k + 1];
        }
      }
    }
  }

  /** After a record with a fill-up and a reading, a higher reading produces one point for that leg. */
  lemma RegularReadingAt(p: seq<FuelLog>, y: FuelLog)
    requires |p| > 0 && p[|p| - 1].amount > 0.0 && p[|p| - 1].odometer > 0
    requires y.odometer > p[|p| - 1].odometer
    ensures ReadingAt(p, y) ==
            [Reading(y.date, Efficiency(p[|p| - 1].amount, y.odometer - p[|p| - 1].odometer))]
  {
    assert LastReading(p) == Some(p[|p| - 1].odometer);
    assert LastFill(p) == p[|p| - 1].amount;
  }

  /** The sum of values all within [lo, hi] lies within [lo, hi] times their count. */
  lemma {:induction false} SumWithin(xs: seq<real>, lo: real, hi: real)
    requires forall k :: 0 <= k < |xs| ==> lo <= xs[k] <= hi
    ensures lo * |xs| as real <= SumReals(xs) <= hi * |xs| as real
  {
    if |xs| > 0 {
      SumWithin(xs[..|xs| - 1], lo, hi);
    }
  }

  /** The mean of values within [lo, hi] is within [lo, hi]. */
  lemma MeanWithin(xs: seq<real>, lo: real, hi: real)
    requires |xs| > 0
    requires forall k :: 0 <= k < |xs| ==> lo <= xs[k] <= hi
    ensures lo <= Mean(xs) <= hi
  {
    SumWithin(xs, lo, hi);
    QuotientBetween(SumReals(xs), |xs| as real, lo, hi);
  }

  /** The sum of positive values is positive when there is at least one. */
  lemma {:induction false} SumPositive(xs: seq<real>)
    requires |xs| > 0
    requires forall k :: 0 <= k < |xs| ==> xs[k] > 0.0
    ensures SumReals(xs) > 0.0
  {
    if |xs| > 1 {
      SumPositive(xs[..|xs| - 1]);
    }
  }

  /** The mean of positive values is positive exactly when there is at least one. */
  lemma MeanPositive(xs: seq<real>)
    requires forall k :: 0 <= k < |xs| ==> xs[k] > 0.0
    ensures Mean(xs) > 0.0 <==> |xs| > 0
  {
    if |xs| > 0 {
      SumPositive(xs);
    }
  }

  /** `avgEfficiency` is positive exactly when the series has a reading. */
  lemma AverageEfficiencyPositive(logs: seq<FuelLog>)
    ensures AnalyticsOf(logs).avgEfficiency > 0.0 <==> |Series(logs)| > 0
  {
    EfficienciesPositive(logs);
    MeanPositive(Efficiencies(Series(logs)));
  }

  lemma EfficienciesPositive(logs: seq<FuelLog>)
    ensures forall k :: 0 <= k < |Efficiencies(Series(logs))| ==> Efficiencies(Series(logs))[k] > 0.0
  {
    SeriesPositive(logs);
  }

  /**
   * The worked efficiency scenario: readings 10000, 10500 and 10900 with
   * amounts 40, 0 and 35. The first record's 40 is the fuel used for both
   * legs, giving 8 and 10 per 100 distance units and a mean of 9; the third
   * record's 35 is not used, because the scan starts before the current record.
   */
  lemma EfficiencyScenario(a: FuelLog, b: FuelLog, c: FuelLog)
    requires a.date == 1 && a.odometer == 10000 && a.amount == 40.0
    requires b.date == 2 && b.odometer == 10500 && b.amount == 0.0
    requires c.date == 3 && c.odometer == 10900 && c.amount == 35.0
    ensures Series([a, b, c]) == [Reading(2, 8.0), Reading(3, 10.0)]
    ensures AnalyticsOf([a, b, c]).totalDistance == 900
    ensures AnalyticsOf([a, b, c]).avgEfficiency == 9.0
  {
    var s := [a, b, c];
    assert s[..2] == [a, b];
    assert [a, b][..1] == [a];
    assert [a][..0] == [];
    assert LastReading([a]) == Some(10000) && Distance([a]) == 0 && Series([a]) == [];
    assert LastFill([a]) == 40.0 && LastFill([a, b]) == 40.0;
    assert Leg([a], b) == 500 && Efficiency(40.0, 500) == 8.0;
    assert ReadingAt([a], b) == [Reading(2, 8.0)];
    assert Series([a, b]) == [Reading(2, 8.0)];
    assert LastReading([a, b]) == Some(10500) && Distance([a, b]) == 500;
    assert Leg([a, b], c) == 400 && Efficiency(40.0, 400) == 10.0;
    assert ReadingAt([a, b], c) == [Reading(3, 10.0)];
    assert Series(s) == [Reading(2, 8.0)] + [Reading(3, 10.0)];
    var e := Efficiencies(Series(s));
    assert e == [8.0, 10.0];
    assert e[..1] == [8.0];
    assert [8.0][..0] == [];
    assert SumReals(e) == 18.0;
  }
}
