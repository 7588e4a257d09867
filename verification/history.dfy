/** The history tab of the client: the cached records of one month (or of
    every month) of one year, and the sum of the expenses among them. */
module History {
  import opened Seqs
  import opened Records

  /** The month selector: "all", or a 0-based month index as `Date.getMonth()` reports. */
  datatype MonthChoice = AllMonths | Month(index: int)

  /** What the history list shows: the "No records found." notice with an
      empty statistics line, or the kept records and their expense total. */
  datatype HistoryView = NoRecords | Listed(rows: seq<Transaction>, expenseTotal: real)

  /** `tx.date || tx.created_at`: the record's date, or its creation time when it has none. */
  function DateOf(t: Transaction): Stamp
  {
    match t.date
    case Some(d) => d
    case None => t.createdAt
  }

  /** The history filter: the year matches, and the month matches unless "all" is chosen. */
  predicate InPeriod(t: Transaction, month: MonthChoice, year: int)
  {
    var d := DateOf(t);
    (month.AllMonths? || d.month == month.index) && d.year == year
  }

  function InPeriodOf(month: MonthChoice, year: int): Transaction -> bool
  {
    (t: Transaction) => InPeriod(t, month, year)
  }

  /** The expense total of a period. */
  function PeriodTotal(txs: seq<Transaction>, month: MonthChoice, year: int): real
  {
    ExpenseTotal(Filter(txs, InPeriodOf(month, year)))
  }

  /** `transactions.filter(...)` with the history predicate. */
  method FilterPeriod(txs: seq<Transaction>, month: MonthChoice, year: int) returns (filtered: seq<Transaction>)
    ensures filtered == Filter(txs, InPeriodOf(month, year))
  {
    var keep := InPeriodOf(month, year);
    filtered := [];
    var i := 0;
    while i < |txs|
      invariant 0 <= i <= |txs|
      invariant filtered == Filter(txs[..i], keep)
    {
      FilterConcat(txs[..i], [txs[i]], keep);
      assert txs[..i + 1] == txs[..i] + [txs[i]];
      if InPeriod(txs[i], month, year) {
        filtered := filtered + [txs[i]];
      }
      i := i + 1;
    }
    assert txs[..i] == txs;
  }

  /** The `forEach` that adds up `Number(tx.amount)` over the expense records. */
  method SumExpenses(rows: seq<Transaction>) returns (total: real)
    ensures total == ExpenseTotal(rows)
  {
    total := 0.0;
    var j := 0;
    while j < |rows|
      invariant 0 <= j <= |rows|
      invariant total == ExpenseTotal(rows[..j])
    {
      var t := rows[j];
      assert rows[..j + 1] == rows[..j] + [t];
      FilterConcat(rows[..j], [t], IsExpense);
      TotalConcat(Filter(rows[..j], IsExpense), Filter([t], IsExpense));
      if IsExpense(t) {
        total := total + t.amount;
      }
      j := j + 1;
    }
    assert rows[..j] == rows;
  }

  /** The history tab: filter the records; when nothing is kept show the
      notice, otherwise the kept records and the sum of their expenses. */
  method RenderHistory(txs: seq<Transaction>, month: MonthChoice, year: int) returns (v: HistoryView)
    ensures v.NoRecords? <==> forall t :: t in txs ==> !InPeriod(t, month, year)
    ensures v.Listed? ==> v.rows == Filter(txs, InPeriodOf(month, year))
    ensures v.Listed? ==> v.expenseTotal == ExpenseTotal(v.rows)
  {
    var filtered := FilterPeriod(txs, month, year);
    if |filtered| == 0 {
      forall t | t in txs
        ensures !InPeriod(t, month, year)
      {
        assert InPeriodOf(month, year)(t) ==> t in filtered;
      }
      return NoRecords;
    }
    assert filtered[0] in filtered;
    var total := SumExpenses(filtered);
    v := Listed(filtered, total);
  }

  // ---- properties ----

  /** The listed records are exactly the period's records, in cache order. */
  lemma ListedRowsArePeriodRows(txs: seq<Transaction>, month: MonthChoice, year: int)
    ensures forall t :: t in Filter(txs, InPeriodOf(month, year)) <==> t in txs && InPeriod(t, month, year)
    ensures IsSubsequence(Filter(txs, InPeriodOf(month, year)), txs)
  {
    FilterIsSubsequence(txs, InPeriodOf(month, year));
  }

  /** The total of a period adds over a split of the records. */
  lemma {:induction false} PeriodTotalConcat(a: seq<Transaction>, b: seq<Transaction>, month: MonthChoice, year: int)
    ensures PeriodTotal(a + b, month, year) == PeriodTotal(a, month, year) + PeriodTotal(b, month, year)
  {
    var keep := InPeriodOf(month, year);
    FilterConcat(a, b, keep);
    FilterConcat(Filter(a, keep), Filter(b, keep), IsExpense);
    TotalConcat(Filter(Filter(a, keep), IsExpense), Filter(Filter(b, keep), IsExpense));
  }

  /** The sum of the monthly totals of months `0 .. k-1`. */
  function MonthlyTotals(txs: seq<Transaction>, year: int, k: nat): real
  {
    if k == 0 then 0.0 else MonthlyTotals(txs, year, k - 1) + PeriodTotal(txs, Month(k - 1), year)
  }

  lemma {:induction false} MonthlyTotalsConcat(a: seq<Transaction>, b: seq<Transaction>, year: int, k: nat)
    ensures MonthlyTotals(a + b, year, k) == MonthlyTotals(a, year, k) + MonthlyTotals(b, year, k)
  {
    if k > 0 {
      MonthlyTotalsConcat(a, b, year, k - 1);
      PeriodTotalConcat(a, b, Month(k - 1), year);
      var ma, mb := MonthlyTotals(a, year, k - 1), MonthlyTotals(b, year, k - 1);
      var pa, pb := PeriodTotal(a, Month(k - 1), year), PeriodTotal(b, Month(k - 1), year);
      assert MonthlyTotals(a + b, year, k) == (ma + mb) + (pa + pb);
      assert MonthlyTotals(a, year, k) == ma + pa;
      assert MonthlyTotals(b, year, k) == mb + pb;
    }
  }

  /** A single record contributes to its own month only. */
  lemma SingleMonth(t: Transaction, year: int, m: int)
    ensures PeriodTotal([t], Month(m), year) == if m == DateOf(t).month then PeriodTotal([t], AllMonths, year) else 0.0
  {
  }

  lemma {:induction false} SingleMonthlyTotals(t: Transaction, year: int, k: nat)
    ensures MonthlyTotals([t], year, k) == if 0 <= DateOf(t).month < k then PeriodTotal([t], AllMonths, year) else 0.0
  {
    if k > 0 {
      SingleMonthlyTotals(t, year, k - 1);
      SingleMonth(t, year, k - 1);
    }
  }

  /** With every month index in 0..11, the "all months" total of a year is the
      sum of its twelve monthly totals. */
  lemma {:induction false} YearIsSumOfMonths(txs: seq<Transaction>, year: int)
    requires forall t :: t in txs ==> 0 <= DateOf(t).month < 12
    ensures PeriodTotal(txs, AllMonths, year) == MonthlyTotals(txs, year, 12)
    decreases |txs|
  {
    if |txs| == 0 {
      assert Filter(txs, InPeriodOf(AllMonths, year)) == [];
      MonthlyTotalsEmpty(year, 12);
    } else {
      var t := txs[0];
      assert txs == [t] + txs[1..];
      YearIsSumOfMonths(txs[1..], year);
      PeriodTotalConcat([t], txs[1..], AllMonths, year);
      MonthlyTotalsConcat([t], txs[1..], year, 12);
      SingleMonthlyTotals(t, year, 12);
    }
  }

  lemma {:induction false} MonthlyTotalsEmpty(year: int, k: nat)
    ensures MonthlyTotals([], year, k) == 0.0
  {
    if k > 0 {
      MonthlyTotalsEmpty(year, k - 1);
      assert Filter([], InPeriodOf(Month(k - 1), year)) == [];
    }
  }

  /** A month's records all belong to the "all months" list of the same year. */
  lemma MonthWithinYear(txs: seq<Transaction>, m: int, year: int)
    ensures forall t :: t in Filter(txs, InPeriodOf(Month(m), year)) ==> t in Filter(txs, InPeriodOf(AllMonths, year))
  {
  }
}
