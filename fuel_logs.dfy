/**
 * The fuel-log record, the odometer-only classification, the
 * (date, odometer) order the analytics view sorts by, and the decimal
 * rounding that `toFixed` performs on derived values.
 */
module FuelLogs {
  import Sorting

  /**
   * One stored fill-up or odometer checkpoint. Amounts of money and fuel are
   * exact reals; `odometer` is the parsed integer reading (0: not recorded);
   * `date` is an ordered day key standing for the `YYYY-MM-DD` string.
   */
  datatype FuelLog = FuelLog(
    date: int,
    vehicleId: int,
    fuelType: string,
    price: real,
    totalCost: real,
    amount: real,
    odometer: int,
    notes: string)

  /**
   * A distance checkpoint with no purchase data: a positive reading and
   * cost, price and amount all zero (JavaScript's `!x` on a number).
   */
  predicate IsOdometerOnly(log: FuelLog) {
    log.odometer > 0 && log.totalCost == 0.0 && log.price == 0.0 && log.amount == 0.0
  }

  /**
   * The comparator handed to `sort` before the analytics pass: negative when
   * `a` goes first, by date and then by odometer.
   */
  function CompareLogs(a: FuelLog, b: FuelLog): (r: int)
    ensures r > 0 <==> b.date < a.date || (a.date == b.date && b.odometer < a.odometer)
    ensures r < 0 <==> a.date < b.date || (a.date == b.date && a.odometer < b.odometer)
    ensures r == 0 <==> a.date == b.date && a.odometer == b.odometer
  {
    if a.date - b.date != 0 then a.date - b.date else a.odometer - b.odometer
  }

  /** `a` may precede `b` in the sorted list. */
  predicate LogLe(a: FuelLog, b: FuelLog) {
    CompareLogs(a, b) <= 0
  }

  lemma LogLeIsTotalPreorder()
    ensures Sorting.TotalPreorder(LogLe)
  {
  }

  /** `logsToShow.sort(...)`: in place, ordered by (date, odometer), same records. */
  method SortLogs(logs: array<FuelLog>)
    modifies logs
    ensures Sorting.SortedBy(logs[..], LogLe)
    ensures multiset(logs[..]) == multiset(old(logs[..]))
  {
    LogLeIsTotalPreorder();
    Sorting.InsertionSort(logs, LogLe);
  }

  /** 10 to the power `n`, exactly. */
  function Pow10(n: nat): (p: real)
    ensures p >= 1.0
  {
    if n == 0 then 1.0 else 10.0 * Pow10(n - 1)
  }

  /** Half a unit in the last kept decimal place: the largest rounding error. */
  function HalfUnit(places: nat): (h: real)
    ensures 0.0 < h <= 0.5
    ensures h * Pow10(places) == 0.5
  {
    if places == 0 then 0.5 else HalfUnit(places - 1) / 10.0
  }

  /**
   * `Number.prototype.toFixed(places)` read back as a number: rounds to
   * `places` decimals, halves away from zero, so the error is at most half a
   * unit in the last place and the sign is kept.
   */
  function Round(x: real, places: nat): (r: real)
    ensures HasPlaces(r, places)
    ensures -HalfUnit(places) <= r - x <= HalfUnit(places)
    ensures x >= 0.0 ==> r >= 0.0
    ensures x <= 0.0 ==> r <= 0.0
  {
    if x >= 0.0 then RoundUp(x, places)
    else
      var u := RoundUp(-x, places);
      NegatedPlaces(u, places);
      -u
  }

  /** `r` has at most `places` decimals: scaled by 10^places it is a whole number. */
  predicate HasPlaces(r: real, places: nat) {
    (r * Pow10(places)).Floor as real == r * Pow10(places)
  }

  /** Negation keeps the number of decimals. */
  lemma NegatedPlaces(u: real, places: nat)
    requires HasPlaces(u, places)
    ensures HasPlaces(-u, places)
  {
    var n := (u * Pow10(places)).Floor;
    assert -u * Pow10(places) == (-n) as real;
  }

  /** Rounding of a non-negative value: half-units go up. */
  function RoundUp(x: real, places: nat): (r: real)
    requires x >= 0.0
    ensures HasPlaces(r, places)
    ensures -HalfUnit(places) < r - x <= HalfUnit(places)
    ensures r >= 0.0
  {
    var scale := Pow10(places);
    var f := (x * scale + 0.5).Floor;
    ScaledError(x, f, scale);
    assert HalfUnit(places) == 0.5 / scale;
    WholeOverScale(f, places);
    f as real / scale
  }

  /** A whole number of units of 10^-places has at most `places` decimals. */
  lemma WholeOverScale(f: int, places: nat)
    ensures HasPlaces(f as real / Pow10(places), places)
  {
    assert f as real / Pow10(places) * Pow10(places) == f as real;
  }

  /** The error of `f / scale` against `x` is the scaled error of `f` against `x * scale`. */
  lemma ScaledError(x: real, f: int, scale: real)
    requires scale >= 1.0 && x >= 0.0
    requires f as real <= x * scale + 0.5 < f as real + 1.0
    ensures -0.5 / scale < f as real / scale - x <= 0.5 / scale
    ensures f as real / scale >= 0.0
  {
    var e := f as real - x * scale;
    assert f as real / scale - x == e / scale;
    assert -0.5 < e <= 0.5;
    assert f >= 0;
  }
}
