/**
 * Month navigation of the calendar view. The displayed month and year are
 * two pieces of page state that the previous/next buttons (and the swipe
 * gestures, which do the same) step by one month, wrapping the month index
 * between 0 (January) and 11 (December) and carrying into the year.
 */
module Calendar {

  /** The month position as one count of months: `year * 12 + month`. */
  function MonthNumber(year: int, month: int): int {
    year * 12 + month
  }

  /** Distinct (year, month) positions with a month index in 0..11 have distinct month numbers. */
  lemma MonthNumberInjective(y1: int, m1: int, y2: int, m2: int)
    requires 0 <= m1 <= 11 && 0 <= m2 <= 11
    requires MonthNumber(y1, m1) == MonthNumber(y2, m2)
    ensures y1 == y2 && m1 == m2
  {
  }

  /** `currentMonth` and `currentYear`. */
  class CalendarView {
    var currentMonth: int
    var currentYear: int

    /** The month index is always a JavaScript month, 0..11. */
    predicate Valid()
      reads this
    {
      0 <= currentMonth <= 11
    }

    /** The view opens on a given month (the page uses today's). */
    constructor (month: int, year: int)
      requires 0 <= month <= 11
      ensures Valid()
      ensures currentMonth == month && currentYear == year
    {
      currentMonth := month;
      currentYear := year;
    }

    /** The previous-month button: back one month, from January to December of the year before. */
    method PrevMonth()
      requires Valid()
      modifies this
      ensures Valid()
      ensures old(currentMonth) > 0 ==> currentMonth == old(currentMonth) - 1 && currentYear == old(currentYear)
      ensures old(currentMonth) == 0 ==> currentMonth == 11 && currentYear == old(currentYear) - 1
      ensures MonthNumber(currentYear, currentMonth) == MonthNumber(old(currentYear), old(currentMonth)) - 1
    {
      currentMonth := currentMonth - 1;
      if currentMonth < 0 {
        currentMonth := 11;
        currentYear := currentYear - 1;
      }
    }

    /** The next-month button: forward one month, from December to January of the year after. */
    method NextMonth()
      requires Valid()
      modifies this
      ensures Valid()
      ensures old(currentMonth) < 11 ==> currentMonth == old(currentMonth) + 1 && currentYear == old(currentYear)
      ensures old(currentMonth) == 11 ==> currentMonth == 0 && currentYear == old(currentYear) + 1
      ensures MonthNumber(currentYear, currentMonth) == MonthNumber(old(currentYear), old(currentMonth)) + 1
    {
      currentMonth := currentMonth + 1;
      if currentMonth > 11 {
        currentMonth := 0;
        currentYear := currentYear + 1;
      }
    }
  }

  /** Going back a month and then forward again shows the same month and year as before. */
  method PrevThenNext(view: CalendarView)
    requires view.Valid()
    modifies view
    ensures view.Valid()
    ensures view.currentMonth == old(view.currentMonth) && view.currentYear == old(view.currentYear)
  {
    ghost var month, year := view.currentMonth, view.currentYear;
    view.PrevMonth();
    view.NextMonth();
    MonthNumberInjective(view.currentYear, view.currentMonth, year, month);
  }
}
