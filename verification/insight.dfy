/** The dashboard figures of the client: the doughnut chart's two slices and
    the rule table behind the "AI" insight box. */
module Insight {
  import opened Seqs
  import opened Records

  /** The four outcomes of the insight box; a deficit carries the overspend. */
  datatype Insight = AwaitingData | CriticalAlert | Deficit(overspent: real) | Healthy

  /** The doughnut chart's data: the expense slice and the savings slice. */
  datatype Doughnut = Doughnut(expenses: real, savings: real)

  function Title(i: Insight): string
  {
    match i
    case AwaitingData => "Awaiting Data"
    case CriticalAlert => "Critical Alert"
    case Deficit(_) => "Deficit"
    case Healthy => "Healthy"
  }

  /** The message line; the deficit message embeds the overspend, whose
      currency formatting is not modelled. */
  function Message(i: Insight): string
  {
    match i
    case AwaitingData => "Start adding entries."
    case CriticalAlert => "Expenses with no income!"
    case Deficit(_) => "You overspent by "
    case Healthy => "Finances are stable."
  }

  function Abs(x: real): real
  {
    if x < 0.0 then -x else x
  }

  /** The rule table, evaluated top to bottom; the first matching rule wins. */
  function Classify(inc: real, exp: real): (r: Insight)
    ensures r.AwaitingData? <==> inc == 0.0 && exp == 0.0
    ensures r.CriticalAlert? <==> inc == 0.0 && exp != 0.0
    ensures r.Deficit? <==> inc != 0.0 && exp > inc
    ensures r.Healthy? <==> inc != 0.0 && exp <= inc
    ensures r.Deficit? ==> r.overspent == exp - inc && r.overspent > 0.0
  {
    var bal := inc - exp;
    if inc == 0.0 && exp == 0.0 then AwaitingData
    else if inc == 0.0 then CriticalAlert
    else if exp > inc then Deficit(Abs(bal))
    else Healthy
  }

  /** `generateAI`: the classification of the cached records' totals. */
  function GenerateAI(txs: seq<Transaction>): (r: Insight)
    ensures |txs| == 0 ==> r == AwaitingData
    ensures r.AwaitingData? <==> IncomeTotal(txs) == 0.0 && ExpenseTotal(txs) == 0.0
    ensures r.CriticalAlert? <==> IncomeTotal(txs) == 0.0 && ExpenseTotal(txs) != 0.0
    ensures r.Deficit? <==> IncomeTotal(txs) != 0.0 && ExpenseTotal(txs) > IncomeTotal(txs)
    ensures r.Deficit? ==> r.overspent == ExpenseTotal(txs) - IncomeTotal(txs)
  {
    Classify(IncomeTotal(txs), ExpenseTotal(txs))
  }

  /** `(inc - exp) > 0 ? inc - exp : 0`. */
  function SavingsSlice(inc: real, exp: real): (r: real)
    ensures r >= 0.0
    ensures r >= inc - exp
    ensures r == 0.0 || r == inc - exp
  {
    if inc - exp > 0.0 then inc - exp else 0.0
  }

  /** `updateChart`: the expense total and the savings slice. */
  function Chart(txs: seq<Transaction>): (r: Doughnut)
    ensures r.expenses == ExpenseTotal(txs)
    ensures r.savings == SavingsSlice(IncomeTotal(txs), ExpenseTotal(txs))
    ensures r.savings >= 0.0
    ensures r.expenses + r.savings == if IncomeTotal(txs) > ExpenseTotal(txs) then IncomeTotal(txs) else ExpenseTotal(txs)
  {
    var inc := IncomeTotal(txs);
    var exp := ExpenseTotal(txs);
    Doughnut(exp, SavingsSlice(inc, exp))
  }

  // ---- properties ----

  /** The chart and the insight box agree: a deficit or a critical alert with
      spending shows no savings slice, a healthy result shows exactly the
      balance. */
  lemma ChartAgreesWithInsight(txs: seq<Transaction>)
    requires NonNegative(txs)
    ensures GenerateAI(txs).Deficit? ==> Chart(txs).savings == 0.0
    ensures GenerateAI(txs).CriticalAlert? ==> Chart(txs).savings == 0.0 && Chart(txs).expenses > 0.0
    ensures GenerateAI(txs).Healthy? ==> Chart(txs).savings == IncomeTotal(txs) - ExpenseTotal(txs)
    ensures GenerateAI(txs).AwaitingData? ==> Chart(txs) == Doughnut(0.0, 0.0)
  {
    FilterNonNegative(txs, IsExpense);
    TotalNonNegative(Filter(txs, IsExpense));
  }

  /** With non-negative amounts a critical alert means income 0 and spending above 0,
      and a deficit reports the overspend. */
  lemma InsightMeaning(txs: seq<Transaction>)
    requires NonNegative(txs)
    ensures GenerateAI(txs).CriticalAlert? <==> IncomeTotal(txs) == 0.0 && ExpenseTotal(txs) > 0.0
    ensures GenerateAI(txs).Healthy? <==> IncomeTotal(txs) > 0.0 && ExpenseTotal(txs) <= IncomeTotal(txs)
  {
    FilterNonNegative(txs, IsExpense);
    TotalNonNegative(Filter(txs, IsExpense));
    FilterNonNegative(txs, IsIncome);
    TotalNonNegative(Filter(txs, IsIncome));
  }

  /** The insight and the chart depend on the multiset of records only, not on their order. */
  lemma DashboardPermutation(a: seq<Transaction>, b: seq<Transaction>)
    requires multiset(a) == multiset(b)
    ensures GenerateAI(a) == GenerateAI(b)
    ensures Chart(a) == Chart(b)
  {
    FilteredTotalPermutation(a, b, IsExpense);
    FilteredTotalPermutation(a, b, IsIncome);
  }

  /** The title and the message each tell the four outcomes apart. */
  lemma TextIdentifiesOutcome(i: Insight, j: Insight)
    ensures Title(i) == Title(j) <==> SameOutcome(i, j)
    ensures Message(i) == Message(j) <==> SameOutcome(i, j)
  {
    if !SameOutcome(i, j) {
      assert Title(i)[0] != Title(j)[0] || |Title(i)| != |Title(j)|;
      assert Message(i)[0] != Message(j)[0] || |Message(i)| != |Message(j)|;
    }
  }

  /** The same rule fired, whatever the overspend. */
  predicate SameOutcome(i: Insight, j: Insight)
  {
    (i.AwaitingData? && j.AwaitingData?) || (i.CriticalAlert? && j.CriticalAlert?)
    || (i.Deficit? && j.Deficit?) || (i.Healthy? && j.Healthy?)
  }

  /** Worked examples of the rule table. */
  lemma Scenarios()
    ensures Classify(0.0, 0.0) == AwaitingData
    ensures Classify(0.0, 500.0) == CriticalAlert
    ensures Classify(10000.0, 12000.0) == Deficit(2000.0)
    ensures Classify(10000.0, 1000.0) == Healthy
    ensures Classify(10000.0, 10000.0) == Healthy
    ensures Title(Classify(10000.0, 12000.0)) == "Deficit"
  {
  }
}
