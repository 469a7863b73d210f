/**
 The effective amount of a card transaction under its adjustment: what counts in its billing cycle and
 what counts in a calendar month, in exact arithmetic. A month is a year and a month index 0 to 11.
 */
module EffectiveAmount {
  import opened Wrappers

  datatype Adjustment = Split(share: real) | Exclude | Amortize(months: int)

  datatype Month = Month(year: int, monthIndex: int)

  predicate IsMonth(m: Month) {
    0 <= m.monthIndex < 12
  }

  function Index(m: Month): int {
    m.year * 12 + m.monthIndex
  }

  function MonthAt(index: int): (m: Month)
    ensures IsMonth(m) && Index(m) == index
  {
    Month(index / 12, index % 12)
  }

  /** Half-up rounding to two decimals. */
  function RoundMoney(x: real): real {
    (x * 100.0 + 0.5).Floor as real / 100.0
  }

  function AddCalendarMonths(m: Month, delta: int): Month {
    var idx := m.year * 12 + m.monthIndex + delta;
    Month(idx / 12, ((idx % 12) + 12) % 12)
  }

  function EffectiveForCycle(amount: real, adjustment: Option<Adjustment>): real {
    match adjustment
    case None => RoundMoney(amount)
    case Some(Exclude) => 0.0
    case Some(Split(share)) => RoundMoney(share)
    case Some(Amortize(n)) => if n < 2 then RoundMoney(amount) else RoundMoney(amount / n as real)
  }

  /** The months a transaction counts in, and how many they are. */
  function Span(adjustment: Option<Adjustment>): (n: nat)
  {
    match adjustment
    case Some(Amortize(n)) => if n < 2 then 0 else n
    case _ => 1
  }

  /** A month counts when it is one of the Span months from the transaction's own. */
  predicate Counts(txn: Month, month: Month, adjustment: Option<Adjustment>) {
    Index(txn) <= Index(month) < Index(txn) + Span(adjustment)
  }

  function EffectiveForMonth(amount: real, txn: Month, month: Month, adjustment: Option<Adjustment>): real {
    if Counts(txn, month, adjustment) then EffectiveForCycle(amount, adjustment) else 0.0
  }

  lemma AddIsIndex(m: Month, delta: int)
    ensures AddCalendarMonths(m, delta) == MonthAt(Index(m) + delta)
  {
  }

  lemma SameMonth(a: Month, b: Month)
    requires IsMonth(a) && IsMonth(b)
    ensures a == b <==> Index(a) == Index(b)
  {
  }

  /** The month-by-month loop of the service decides membership of the span. */
  method EffectiveForCalendarMonth(amount: real, txn: Month, month: Month, adjustment: Option<Adjustment>) returns (r: real)
    requires IsMonth(txn) && IsMonth(month)
    ensures r == EffectiveForMonth(amount, txn, month, adjustment)
  {
    SameMonth(txn, month);
    if adjustment.None? {
      return if txn == month then RoundMoney(amount) else 0.0;
    }
    if adjustment.value.Exclude? {
      return 0.0;
    }
    if adjustment.value.Split? {
      return if txn == month then RoundMoney(adjustment.value.share) else 0.0;
    }
    var n := adjustment.value.months;
    if n < 2 {
      return 0.0;
    }
    var slice := RoundMoney(amount / n as real);
    for i := 0 to n
      invariant !(Index(txn) <= Index(month) < Index(txn) + i)
    {
      AddIsIndex(txn, i);
      SameMonth(AddCalendarMonths(txn, i), month);
      if AddCalendarMonths(txn, i) == month {
        return slice;
      }
    }
    return 0.0;
  }

  // ---------------------------------------------------------------------------------------------
  // Validation
  // ---------------------------------------------------------------------------------------------

  datatype Kind = SPLIT | EXCLUDE | AMORTIZE | OTHER

  /** A stored adjustment row. */
  datatype Stored = Stored(kind: Kind, personalShare: Option<real>, amortizeMonths: Option<int>)

  datatype AdjustmentError = BadShare | BadMonths

  /** What a request may carry; a missing or non-numeric value fails every comparison. */
  function ValidateAdjustment(kind: Kind, amount: real, share: Option<real>, months: Option<int>): Result<Stored, AdjustmentError> {
    if kind.SPLIT? && !(share.Some? && 0.0 < share.value < amount) then Failure(BadShare)
    else if kind.AMORTIZE? && !(months.Some? && 2 <= months.value <= 60) then Failure(BadMonths)
    else Success(Stored(kind, if kind.SPLIT? then share else None, if kind.AMORTIZE? then months else None))
  }

  function MapAdjustment(stored: Option<Stored>): Option<Adjustment> {
    match stored
    case None => None
    case Some(row) =>
      match row.kind
      case SPLIT => Some(Split(row.personalShare.GetOr(0.0)))
      case EXCLUDE => Some(Exclude)
      case AMORTIZE => Some(Amortize(row.amortizeMonths.GetOr(0)))
      case OTHER => None
  }

  predicate Validated(adjustment: Option<Adjustment>) {
    adjustment.Some? && adjustment.value.Amortize? ==> 2 <= adjustment.value.months <= 60
  }

  /** Every row the service accepts reads back as a validated adjustment. */
  lemma AcceptedIsValidated(kind: Kind, amount: real, share: Option<real>, months: Option<int>)
    requires ValidateAdjustment(kind, amount, share, months).Success?
    ensures Validated(MapAdjustment(Some(ValidateAdjustment(kind, amount, share, months).value)))
  {
  }

  /** Exactly which requests are accepted, and what an accepted one then makes of a transaction: excluded it
      counts nothing anywhere, split its share counts in its cycle and its own month, amortised over n months
      an n-th counts in its cycle and in each of the n months from its own on. */
  lemma AcceptedCounts(kind: Kind, amount: real, share: Option<real>, months: Option<int>, txn: Month, month: Month)
    requires IsMonth(txn) && IsMonth(month)
    ensures ValidateAdjustment(kind, amount, share, months).Success? <==>
            && (kind.SPLIT? ==> share.Some? && 0.0 < share.value < amount)
            && (kind.AMORTIZE? ==> months.Some? && 2 <= months.value <= 60)
    ensures ValidateAdjustment(kind, amount, share, months).Success? ==>
              var adjustment := MapAdjustment(Some(ValidateAdjustment(kind, amount, share, months).value));
              var cycle, calendar := EffectiveForCycle(amount, adjustment), EffectiveForMonth(amount, txn, month, adjustment);
              && (kind.EXCLUDE? ==> cycle == 0.0 && calendar == 0.0)
              && (kind.SPLIT? ==> cycle == RoundMoney(share.value) && calendar == if month == txn then RoundMoney(share.value) else 0.0)
              && (kind.AMORTIZE? ==>
                    && cycle == RoundMoney(amount / months.value as real)
                    && calendar == if 0 <= 12 * (month.year - txn.year) + month.monthIndex - txn.monthIndex < months.value
                                   then RoundMoney(amount / months.value as real) else 0.0)
    ensures EffectiveForCycle(amount, None) == RoundMoney(amount)
    ensures EffectiveForMonth(amount, txn, month, None) == if month == txn then RoundMoney(amount) else 0.0
  {
    hide RoundMoney;
    SameMonth(txn, month);
  }

  /** Rounding yields whole paise, as near as can be; half a paisa goes up. */
  lemma RoundsToPaise(x: real) returns (paise: int)
    ensures RoundMoney(x) == paise as real / 100.0
    ensures x - 0.005 < RoundMoney(x) <= x + 0.005
  {
    paise := (x * 100.0 + 0.5).Floor;
  }

  // ---------------------------------------------------------------------------------------------
  // Totals over all months
  // ---------------------------------------------------------------------------------------------

  /** Sum over the calendar months with index from `lo` up to `hi`. */
  function SumMonths(amount: real, txn: Month, adjustment: Option<Adjustment>, lo: int, hi: int): real
    decreases hi - lo
  {
    if hi <= lo then 0.0
    else EffectiveForMonth(amount, txn, MonthAt(lo), adjustment) + SumMonths(amount, txn, adjustment, lo + 1, hi)
  }

  function Times(k: int, x: real): real {
    k as real * x
  }

  lemma TimesStep(k: int, x: real)
    ensures Times(0, x) == 0.0 && Times(1, x) == x && Times(k, x) == x + Times(k - 1, x)
  {
  }

  lemma {:induction false} SumOutside(amount: real, txn: Month, adjustment: Option<Adjustment>, lo: int, hi: int)
    requires Index(txn) + Span(adjustment) <= lo
    ensures SumMonths(amount, txn, adjustment, lo, hi) == 0.0
    decreases hi - lo
  {
    hide EffectiveForCycle, Span, MonthAt;
    if lo < hi {
      SumOutside(amount, txn, adjustment, lo + 1, hi);
    }
  }

  lemma {:induction false} SumInside(amount: real, txn: Month, adjustment: Option<Adjustment>, lo: int, hi: int)
    requires Index(txn) <= lo <= Index(txn) + Span(adjustment) <= hi
    ensures SumMonths(amount, txn, adjustment, lo, hi)
            == Times(Index(txn) + Span(adjustment) - lo, EffectiveForCycle(amount, adjustment))
    decreases hi - lo
  {
    hide EffectiveForCycle, Span, MonthAt, Times;
    TimesStep(Index(txn) + Span(adjustment) - lo, EffectiveForCycle(amount, adjustment));
    if lo == Index(txn) + Span(adjustment) {
      SumOutside(amount, txn, adjustment, lo, hi);
    } else {
      SumInside(amount, txn, adjustment, lo + 1, hi);
      assert EffectiveForMonth(amount, txn, MonthAt(lo), adjustment) == EffectiveForCycle(amount, adjustment);
    }
  }

  /** Over any stretch of months that holds the span, the calendar amounts add up to Span times the
      cycle amount. */
  lemma {:induction false} CalendarTotal(amount: real, txn: Month, adjustment: Option<Adjustment>, lo: int, hi: int)
    requires lo <= Index(txn) && Index(txn) + Span(adjustment) <= hi
    ensures SumMonths(amount, txn, adjustment, lo, hi) == Times(Span(adjustment), EffectiveForCycle(amount, adjustment))
    decreases Index(txn) - lo
  {
    hide EffectiveForCycle, Span, MonthAt, Times;
    if lo == Index(txn) {
      SumInside(amount, txn, adjustment, lo, hi);
    } else {
      assert EffectiveForMonth(amount, txn, MonthAt(lo), adjustment) == 0.0;
      CalendarTotal(amount, txn, adjustment, lo + 1, hi);
    }
  }

  /** The calendar view and the cycle view agree on the whole of a transaction (amortised or not)
      exactly when it is not an amortisation over fewer than two months, or rounds to nothing: such an
      amortisation counts fully in its cycle and in no calendar month. */
  lemma ViewsAgreeIff(amount: real, txn: Month, adjustment: Option<Adjustment>, lo: int, hi: int)
    requires lo <= Index(txn) && Index(txn) + Max(1, Span(adjustment)) <= hi
    ensures SumMonths(amount, txn, adjustment, lo, hi) == Times(Max(1, Span(adjustment)), EffectiveForCycle(amount, adjustment))
            <==> !(adjustment.Some? && adjustment.value.Amortize? && adjustment.value.months < 2) || RoundMoney(amount) == 0.0
  {
    hide SumMonths, RoundMoney, Times;
    CalendarTotal(amount, txn, adjustment, lo, hi);
    TimesStep(1, EffectiveForCycle(amount, adjustment));
  }

  // ---------------------------------------------------------------------------------------------
  // Rounding
  // ---------------------------------------------------------------------------------------------

  lemma Scale(n: real, a: real, b: real)
    requires 0.0 < n && a <= b
    ensures n * a <= n * b
  {
  }

  lemma ScaleSum(n: real, a: real, b: real)
    ensures n * (a + b) == n * a + n * b
  {
  }

  /** With x an n-th of whole: n roundings of x and one rounding of whole differ by at most n/2. */
  lemma RoundedParts(n: int, x: real, whole: real)
    requires 1 <= n && n as real * x == whole
    ensures var part, all := (x + 0.5).Floor, (whole + 0.5).Floor;
            -n <= 2 * (n * part - all) <= n
  {
    var part, all := (x + 0.5).Floor, (whole + 0.5).Floor;
    var m := n as real;
    Scale(m, part as real, x + 0.5);
    Scale(m, x - 0.5, part as real);
    ScaleSum(m, x, 0.5);
    ScaleSum(m, x, -0.5);
    assert m * part as real == (n * part) as real;
  }

  /** An amortised transaction, summed over all its months, is within n/2 paise of the rounded
      original. */
  lemma AmortisedTotalClose(amount: real, n: int)
    requires 2 <= n
    ensures var total := n as real * RoundMoney(amount / n as real);
            -(n as real) / 200.0 <= total - RoundMoney(amount) <= n as real / 200.0
  {
    var m := n as real;
    var x := amount / m * 100.0;
    assert m * (amount / m) == amount;
    ThreeFactors(m, amount / m, 100.0);
    RoundedParts(n, x, amount * 100.0);
    var part, all := (x + 0.5).Floor, (amount * 100.0 + 0.5).Floor;
    assert RoundMoney(amount / m) == part as real / 100.0 && RoundMoney(amount) == all as real / 100.0;
    WholeTimes(n, part);
    ThreeFactors(m, part as real, 0.01);
    assert part as real / 100.0 == part as real * 0.01;
  }

  lemma WholeTimes(n: int, k: int)
    ensures n as real * k as real == (n * k) as real
  {
  }

  lemma ThreeFactors(a: real, b: real, c: real)
    ensures a * (b * c) == (a * b) * c
  {
  }
}
