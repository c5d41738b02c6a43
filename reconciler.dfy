/**
 * The fuel-log form: the live reconciliation of price, total cost and
 * amount from the last field the user focused, and the rules the save
 * button applies before a record is stored.
 */
module Reconciler {
  import opened Wrappers
  import opened FuelLogs
  import Text

  /** The three inputs whose focus sets `lastEdited`. */
  datatype Field = Price | Cost | Amount

  /** The parsed contents of the price, cost and amount inputs (`parseFloat(...) || 0`). */
  datatype FuelValues = FuelValues(price: real, totalCost: real, amount: real)

  /**
   * One run of the `input` listener as a pure function of the three parsed
   * values and the last-focused field: at most one field, the one derived,
   * changes.
   */
  function Reconcile(price: real, totalCost: real, amount: real, lastEdited: Option<Field>): (r: FuelValues)
    // price or cost edited: only the amount may change, to cost / price at 2 decimals
    ensures lastEdited == Some(Price) || lastEdited == Some(Cost) ==>
      r.price == price && r.totalCost == totalCost &&
      r.amount == (if price > 0.0 && totalCost > 0.0 then Round(totalCost / price, 2) else amount)
    // amount edited: the amount stays, and cost (from price) or else price (from cost) is derived
    ensures lastEdited == Some(Amount) ==>
      r.amount == amount &&
      (amount > 0.0 && price > 0.0 ==> r.price == price && r.totalCost == Round(amount * price, 2)) &&
      (amount > 0.0 && price <= 0.0 && totalCost > 0.0 ==>
         r.totalCost == totalCost && r.price == Round(totalCost / amount, 3)) &&
      (amount <= 0.0 || (price <= 0.0 && totalCost <= 0.0) ==> r.price == price && r.totalCost == totalCost)
    ensures lastEdited == None ==> r == FuelValues(price, totalCost, amount)
  {
    if lastEdited == Some(Price) || lastEdited == Some(Cost) then
      if price > 0.0 && totalCost > 0.0 then FuelValues(price, totalCost, Round(totalCost / price, 2))
      else FuelValues(price, totalCost, amount)
    else if lastEdited == Some(Amount) then
      if amount > 0.0 && price > 0.0 then FuelValues(price, Round(amount * price, 2), amount)
      else if amount > 0.0 && totalCost > 0.0 then FuelValues(Round(totalCost / amount, 3), totalCost, amount)
      else FuelValues(price, totalCost, amount)
    else FuelValues(price, totalCost, amount)
  }

  /** `Reconcile` applied to a triple. */
  function ReconcileValues(v: FuelValues, lastEdited: Option<Field>): FuelValues {
    Reconcile(v.price, v.totalCost, v.amount, lastEdited)
  }

  /** A field the listener changes is within half a unit of the exact quotient or product it stands for. */
  lemma ReconcileWithinRounding(price: real, totalCost: real, amount: real, lastEdited: Option<Field>)
    ensures var r := Reconcile(price, totalCost, amount, lastEdited);
            (r.amount != amount ==> price > 0.0 && -HalfUnit(2) <= r.amount - totalCost / price <= HalfUnit(2)) &&
            (r.totalCost != totalCost ==> -HalfUnit(2) <= r.totalCost - amount * price <= HalfUnit(2)) &&
            (r.price != price ==> amount > 0.0 && -HalfUnit(3) <= r.price - totalCost / amount <= HalfUnit(3))
  {
  }

  /** The one case in which a second run can change the triple again: a positive price was derived. */
  predicate DerivesPositivePrice(price: real, totalCost: real, amount: real, lastEdited: Option<Field>) {
    lastEdited == Some(Amount) && amount > 0.0 && price <= 0.0 && totalCost > 0.0 &&
    Round(totalCost / amount, 3) > 0.0
  }

  /** Re-running the listener on its own output changes nothing, except after a derived positive price. */
  lemma ReconcileIdempotent(price: real, totalCost: real, amount: real, lastEdited: Option<Field>)
    requires !DerivesPositivePrice(price, totalCost, amount, lastEdited)
    ensures var once := Reconcile(price, totalCost, amount, lastEdited);
            ReconcileValues(once, lastEdited) == once
  {
    if lastEdited == Some(Price) || lastEdited == Some(Cost) {
      if price > 0.0 && totalCost > 0.0 {
        var a := Round(totalCost / price, 2);
        assert Reconcile(price, totalCost, a, lastEdited) == FuelValues(price, totalCost, a);
      }
    } else if lastEdited == Some(Amount) && amount > 0.0 && price > 0.0 {
      var c := Round(amount * price, 2);
      assert Reconcile(price, c, amount, lastEdited) == FuelValues(price, c, amount);
    } else if lastEdited == Some(Amount) && amount > 0.0 && totalCost > 0.0 {
      var p := Round(totalCost / amount, 3);
      assert p <= 0.0;
      assert Reconcile(p, totalCost, amount, lastEdited) == FuelValues(p, totalCost, amount);
    }
  }

  /**
   * After a derived positive price the next run re-derives the cost from the
   * rounded price: the cost moves, by at most half a thousandth per unit of
   * amount plus half a cent, and nothing else moves.
   */
  lemma DerivedPriceCostDrift(price: real, totalCost: real, amount: real)
    requires DerivesPositivePrice(price, totalCost, amount, Some(Amount))
    ensures var once := Reconcile(price, totalCost, amount, Some(Amount));
            var twice := ReconcileValues(once, Some(Amount));
            twice.price == once.price && twice.amount == amount &&
            -(amount * HalfUnit(3) + HalfUnit(2)) <= twice.totalCost - totalCost <= amount * HalfUnit(3) + HalfUnit(2)
  {
    var p := Round(totalCost / amount, 3);
    assert Reconcile(price, totalCost, amount, Some(Amount)) == FuelValues(p, totalCost, amount);
    var c := Round(amount * p, 2);
    CostFromAmountAndPrice(p, totalCost, amount);
    ChainedRoundingError(amount, totalCost, p, c, HalfUnit(3), HalfUnit(2));
  }

  lemma CostFromAmountAndPrice(price: real, totalCost: real, amount: real)
    requires amount > 0.0 && price > 0.0
    ensures Reconcile(price, totalCost, amount, Some(Amount)) == FuelValues(price, Round(amount * price, 2), amount)
  {
  }

  /**
   * If `p` is within `h1` of `t / a` and `c` within `h2` of `a * p`, then `c`
   * is within `a * h1 + h2` of `t`.
   */
  lemma ChainedRoundingError(a: real, t: real, p: real, c: real, h1: real, h2: real)
    requires a > 0.0
    requires -h1 <= p - t / a <= h1
    requires -h2 <= c - a * p <= h2
    ensures -(a * h1 + h2) <= c - t <= a * h1 + h2
  {
    var e := p - t / a;
    assert a * p - t == a * e;
    MulBound(a, e, h1);
  }

  lemma MulBound(a: real, e: real, h: real)
    requires a > 0.0 && -h <= e <= h
    ensures -(a * h) <= a * e <= a * h
  {
  }

  /** A concrete drift: 1000 litres for 1.40 gives price 0.001, and the next run turns the cost into 1.00. */
  lemma DerivedPriceCostDriftExample()
    ensures var once := Reconcile(0.0, 1.4, 1000.0, Some(Amount));
            once.price == 0.001 && ReconcileValues(once, Some(Amount)).totalCost == 1.0
  {
    assert Pow10(3) == 1000.0 && Pow10(2) == 100.0;
    assert (1.4 / 1000.0 * 1000.0 + 0.5).Floor == 1;
    assert (1000.0 * 0.001 * 100.0 + 0.5).Floor == 100;
  }

  /**
   * Deriving the amount from price and cost, then the cost back from price and
   * amount, returns the cost to within `price` half-cents plus half a cent.
   */
  lemma CostAmountRoundTrip(p: real, c: real)
    requires p > 0.0 && c > 0.0
    ensures var once := Reconcile(p, c, 0.0, Some(Cost));
            var back := ReconcileValues(once, Some(Amount));
            -(p * HalfUnit(2) + HalfUnit(2)) <= back.totalCost - c <= p * HalfUnit(2) + HalfUnit(2)
  {
    var a := Round(c / p, 2);
    assert Reconcile(p, c, 0.0, Some(Cost)) == FuelValues(p, c, a);
    if a > 0.0 {
      var back := Round(a * p, 2);
      CostFromAmountAndPrice(p, c, a);
      assert a * p == p * a;
      ChainedRoundingError(p, c, a, back, HalfUnit(2), HalfUnit(2));
    } else {
      assert Reconcile(p, c, a, Some(Amount)) == FuelValues(p, c, a);
    }
  }

  /** Price 2.000 and cost 40.00 give amount 20.00, and re-deriving the cost gives 40.00 again. */
  lemma CostAmountRoundTripExample()
    ensures var once := Reconcile(2.0, 40.0, 0.0, Some(Cost));
            once.amount == 20.0 && ReconcileValues(once, Some(Amount)).totalCost == 40.0
  {
    assert Pow10(2) == 100.0;
    assert (40.0 / 2.0 * 100.0 + 0.5).Floor == 2000;
    assert (20.0 * 2.0 * 100.0 + 0.5).Floor == 4000;
  }

  /** The form's three numeric inputs and the closure variable `lastEdited`. */
  class FuelLogForm {
    var price: real
    var totalCost: real
    var amount: real
    var lastEdited: Option<Field>

    constructor ()
      ensures Values() == FuelValues(0.0, 0.0, 0.0) && lastEdited == None
    {
      price, totalCost, amount := 0.0, 0.0, 0.0;
      lastEdited := None;
    }

    function Values(): FuelValues
      reads this
    {
      FuelValues(price, totalCost, amount)
    }

    /** A `focus` listener: remembers which input the user is editing. */
    method Focus(f: Field)
      modifies this
      ensures lastEdited == Some(f) && Values() == old(Values())
    {
      lastEdited := Some(f);
    }

    /** The `input` listener `recalculateFuelValues`: writes the derived field back into its input. */
    method Recalculate()
      modifies this
      ensures Values() == Reconcile(old(price), old(totalCost), old(amount), lastEdited)
      ensures lastEdited == old(lastEdited)
    {
      var derived := Reconcile(price, totalCost, amount, lastEdited);
      price, totalCost, amount := derived.price, derived.totalCost, derived.amount;
    }
  }

  /** What the save button reads from the form, already parsed (0 for an empty or unreadable input). */
  datatype FormInput = FormInput(
    date: int,
    vehicleId: int,
    fuelType: string,
    price: real,
    totalCost: real,
    amount: real,
    odometer: int,
    notes: string)

  /** Why `saveFuelLog` refuses to store a record. */
  datatype SaveError =
    | NoVehicle   // no vehicle selected
    | NoData      // no cost, no amount and no odometer reading

  /**
   * The record `saveFuelLog` hands to the store, or the alert it raises
   * instead: a missing amount is derived from price and cost, then a record
   * with neither cost, amount nor odometer is refused.
   */
  function PrepareFuelLog(input: FormInput): (r: Result<FuelLog, SaveError>)
    ensures r == Failure(NoVehicle) <==> input.vehicleId == 0
    ensures r == Failure(NoData) <==>
      input.vehicleId != 0 && input.totalCost == 0.0 && input.amount == 0.0 && input.odometer == 0
    // every stored record carries a cost, an amount or an odometer reading
    ensures r.Success? ==> r.value.totalCost != 0.0 || r.value.amount != 0.0 || r.value.odometer != 0
    ensures r.Success? ==>
      r.value.date == input.date && r.value.vehicleId == input.vehicleId &&
      r.value.fuelType == input.fuelType && r.value.price == input.price &&
      r.value.totalCost == input.totalCost && r.value.odometer == input.odometer &&
      r.value.notes == Text.Trim(input.notes)
    // the amount is kept unless it was missing with price and cost both given
    ensures r.Success? && !(input.price > 0.0 && input.totalCost > 0.0 && input.amount == 0.0) ==>
      r.value.amount == input.amount
    ensures r.Success? && input.price > 0.0 && input.totalCost > 0.0 && input.amount == 0.0 ==>
      r.value.amount == Round(input.totalCost / input.price, 2) &&
      -HalfUnit(2) <= r.value.amount - input.totalCost / input.price <= HalfUnit(2)
  {
    if input.vehicleId == 0 then Failure(NoVehicle)
    else
      var log := FuelLog(input.date, input.vehicleId, input.fuelType, input.price,
                         input.totalCost, input.amount, input.odometer, Text.Trim(input.notes));
      var log := if log.price > 0.0 && log.totalCost > 0.0 && log.amount == 0.0
                 then log.(amount := Round(log.totalCost / log.price, 2)) else log;
      if log.totalCost == 0.0 && log.amount == 0.0 && log.odometer == 0 then Failure(NoData)
      else Success(log)
  }

  /** A stored record is odometer-only exactly when the form held a reading and nothing else. */
  lemma SavedOdometerOnly(input: FormInput)
    requires PrepareFuelLog(input).Success?
    ensures IsOdometerOnly(PrepareFuelLog(input).value) <==>
      input.odometer > 0 && input.price == 0.0 && input.totalCost == 0.0 && input.amount == 0.0
  {
  }
}
