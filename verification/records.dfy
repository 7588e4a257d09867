/** The transaction record shared by the server's `transactions` table and the
    client's in-memory cache, and the amount sums every aggregate is built on. */
module Records {
  import opened Seqs

  /** A timestamp as the model sees it: the calendar year and 0-based month
      that JavaScript's `Date` reports for it, and an instant that orders
      timestamps. Parsing, time zones and the link between the three fields
      are not modelled. */
  datatype Stamp = Stamp(year: int, month: int, instant: int)

  /** One row of the `transactions` table. `kind` is the `type` column: the
      server stores whatever string the client sent. `category` and `date`
      may be NULL; `createdAt` is the row's creation time. */
  datatype Transaction = Transaction(
    id: nat,
    userId: nat,
    description: string,
    amount: real,
    kind: string,
    category: Option<string>,
    date: Option<Stamp>,
    createdAt: Stamp)

  predicate IsExpense(t: Transaction) { t.kind == "expense" }

  predicate IsIncome(t: Transaction) { t.kind == "income" }

  /** `reduce((s, t) => s + Number(t.amount), 0)` over `txs`. */
  function Total(txs: seq<Transaction>): real
    decreases |txs|
  {
    if |txs| == 0 then 0.0 else txs[0].amount + Total(txs[1..])
  }

  /** The sum of the amounts of the expense records. */
  function ExpenseTotal(txs: seq<Transaction>): real
  {
    Total(Filter(txs, IsExpense))
  }

  /** The sum of the amounts of the income records. */
  function IncomeTotal(txs: seq<Transaction>): real
  {
    Total(Filter(txs, IsIncome))
  }

  /** Every amount is at least zero (the server does not enforce this). */
  ghost predicate NonNegative(txs: seq<Transaction>)
  {
    forall i :: 0 <= i < |txs| ==> txs[i].amount >= 0.0
  }

  lemma {:induction false} TotalConcat(a: seq<Transaction>, b: seq<Transaction>)
    ensures Total(a + b) == Total(a) + Total(b)
    decreases |a|
  {
    if |a| == 0 {
      assert a + b == b;
    } else {
      assert (a + b)[1..] == a[1..] + b;
      TotalConcat(a[1..], b);
    }
  }

  lemma {:induction false} TotalNonNegative(txs: seq<Transaction>)
    requires NonNegative(txs)
    ensures Total(txs) >= 0.0
    decreases |txs|
  {
    if |txs| > 0 {
      TotalNonNegative(txs[1..]);
    }
  }

  /** Filtering keeps amounts non-negative. */
  lemma FilterNonNegative(txs: seq<Transaction>, keep: Transaction -> bool)
    requires NonNegative(txs)
    ensures NonNegative(Filter(txs, keep))
  {
  }

  /** The sum does not depend on the order of the records: any permutation of
      the input has the same total. */
  lemma {:induction false} TotalPermutation(a: seq<Transaction>, b: seq<Transaction>)
    requires multiset(a) == multiset(b)
    ensures Total(a) == Total(b)
    decreases |a|
  {
    if |a| == 0 {
      assert |b| == |multiset(b)| == 0;
    } else {
      var x := a[0];
      assert x in multiset(b);
      var k :| 0 <= k < |b| && b[k] == x;
      var rest := b[..k] + b[k + 1..];
      assert b == b[..k] + [x] + b[k + 1..];
      assert a == [x] + a[1..];
      calc {
        multiset(b);
        multiset(b[..k] + [x] + b[k + 1..]);
        multiset(b[..k]) + multiset{x} + multiset(b[k + 1..]);
        multiset(rest) + multiset{x};
      }
      assert multiset(a) == multiset(a[1..]) + multiset{x};
      assert multiset(a[1..]) == multiset(a) - multiset{x};
      assert multiset(rest) == multiset(b) - multiset{x};
      TotalPermutation(a[1..], rest);
      TotalConcat(b[..k], b[k + 1..]);
      TotalConcat(b[..k] + [x], b[k + 1..]);
      TotalConcat(b[..k], [x]);
    }
  }

  /** The filtered sum of a permutation equals the filtered sum of the original. */
  lemma FilteredTotalPermutation(a: seq<Transaction>, b: seq<Transaction>, keep: Transaction -> bool)
    requires multiset(a) == multiset(b)
    ensures Total(Filter(a, keep)) == Total(Filter(b, keep))
  {
    FilterPermutation(a, b, keep);
    TotalPermutation(Filter(a, keep), Filter(b, keep));
  }
}
