/** The budget tab of the client: three category buckets whose limits live in
    the browser's local storage, the amount spent in each, the clamped
    percentage of the limit, the colour band of the progress bar and the
    over-limit alert; and the dialog that stores a new limit. */
module Budget {
  import opened Seqs
  import opened Records

  /** What JavaScript's `Number(...)` makes of a string: NaN or a number. */
  datatype Num = NaN | Number(value: real)

  /** A string as typed or stored, together with the number it reads as.
      Parsing decimal text is not modelled; the reading travels with it. */
  datatype Text = Text(chars: string, number: Num)

  /** The browser's local storage: keys to stored strings. */
  type Storage = map<string, Text>

  /** A budget bucket: the category it tracks and its default limit. */
  datatype Bucket = Bucket(id: string, fallback: real)

  /** The three buckets of the budget tab, in display order. */
  const Buckets: seq<Bucket> :=
    [Bucket("food", 5000.0), Bucket("transport", 3000.0), Bucket("fun", 2000.0)]

  /** Progress-bar colours: green '#10b981', yellow '#facc15', red '#ef4444'. */
  datatype Band = Green | Yellow | Red

  /** What the budget card of one bucket shows. */
  datatype BucketStatus = BucketStatus(
    id: string, limit: real, spent: real, pct: real, band: Band, overLimit: bool)

  /** The local-storage key of a category's limit. */
  function LimitKey(category: string): string
  {
    "budget_limit_" + category
  }

  lemma LimitKeyInjective(a: string, b: string)
    requires LimitKey(a) == LimitKey(b)
    ensures a == b
  {
    var n := |"budget_limit_"|;
    assert a == LimitKey(a)[n..];
    assert b == LimitKey(b)[n..];
  }

  /** `Number(localStorage.getItem(key))`: a missing key reads as `Number(null)`, which is 0. */
  function StoredNumber(storage: Storage, key: string): Num
  {
    if key in storage then storage[key].number else Number(0.0)
  }

  /** `Number(stored) || fallback`: NaN and 0 are falsy, so both fall back. */
  function EffectiveLimit(storage: Storage, b: Bucket): (r: real)
    requires b.fallback != 0.0
    ensures r != 0.0
    ensures LimitKey(b.id) !in storage ==> r == b.fallback
    ensures LimitKey(b.id) in storage && storage[LimitKey(b.id)].number.NaN? ==> r == b.fallback
    ensures LimitKey(b.id) in storage && storage[LimitKey(b.id)].number == Number(0.0) ==> r == b.fallback
    ensures LimitKey(b.id) in storage && storage[LimitKey(b.id)].number.Number?
            && storage[LimitKey(b.id)].number.value != 0.0
            ==> r == storage[LimitKey(b.id)].number.value
  {
    match StoredNumber(storage, LimitKey(b.id))
    case NaN => b.fallback
    case Number(v) => if v != 0.0 then v else b.fallback
  }

  /** The amount spent in a category: the sum over the expense records whose
      category is exactly `category`, taken in one pass. */
  function Spent(txs: seq<Transaction>, category: string): (r: real)
    ensures r == Total(Filter(txs, ExpenseIn(category)))
  {
    FilterFilter(txs, IsExpense, InCategory(category), ExpenseIn(category));
    Total(Filter(Filter(txs, IsExpense), InCategory(category)))
  }

  /** An expense record of exactly that category. */
  function ExpenseIn(category: string): Transaction -> bool
  {
    (t: Transaction) => IsExpense(t) && t.category == Some(category)
  }

  function InCategory(category: string): Transaction -> bool
  {
    (t: Transaction) => t.category == Some(category)
  }

  /** `Math.min(spent / limit * 100, 100)`. */
  function Pct(spent: real, limit: real): (r: real)
    requires limit != 0.0
    ensures r <= 100.0
    ensures limit > 0.0 ==> (r == 100.0 <==> spent >= limit)
    ensures limit > 0.0 && spent < limit ==> r * limit == spent * 100.0
    ensures limit > 0.0 && spent >= 0.0 ==> r >= 0.0
    ensures limit < 0.0 ==> (r == 100.0 <==> spent <= limit)
    ensures limit < 0.0 && spent > limit ==> r * limit == spent * 100.0
  {
    var q := spent / limit;
    QuotientFacts(spent, limit);
    var raw := q * 100.0;
    if raw < 100.0 then raw else 100.0
  }

  /** For a positive limit, `spent / limit` is below 1 exactly when the limit
      is not reached, and non-negative when the spend is; for a negative
      limit it is below 1 exactly when the spend is above the limit. */
  lemma QuotientFacts(spent: real, limit: real)
    requires limit != 0.0
    ensures spent == (spent / limit) * limit
    ensures limit > 0.0 ==> (spent / limit < 1.0 <==> spent < limit)
    ensures limit > 0.0 && spent >= 0.0 ==> spent / limit >= 0.0
    ensures limit < 0.0 ==> (spent / limit < 1.0 <==> spent > limit)
  {
    var q := spent / limit;
    assert spent == q * limit;
    assert (q - 1.0) * limit == spent - limit;
    if limit < 0.0 {
      if q < 1.0 {
        assert (q - 1.0) * limit > 0.0;
      } else {
        var d := q - 1.0;
        assert d >= 0.0 && -limit > 0.0;
        assert d * (-limit) >= 0.0;
        assert spent - limit == -(d * (-limit));
      }
    }
  }

  /** The colour of the progress bar for a percentage. */
  function BandOf(pct: real): (r: Band)
    ensures r == Green <==> pct < 50.0
    ensures r == Yellow <==> 50.0 <= pct < 90.0
    ensures r == Red <==> pct >= 90.0
  {
    if pct < 50.0 then Green else if pct < 90.0 then Yellow else Red
  }

  /** The card of one bucket. */
  function Status(txs: seq<Transaction>, storage: Storage, b: Bucket): (r: BucketStatus)
    requires b.fallback > 0.0
    ensures r.id == b.id && r.limit == EffectiveLimit(storage, b) && r.spent == Spent(txs, b.id)
    ensures r.pct == Pct(r.spent, r.limit) && r.pct <= 100.0
    ensures r.band == BandOf(r.pct)
    ensures r.overLimit <==> r.spent > r.limit
    ensures r.limit > 0.0 && r.overLimit ==> r.pct == 100.0 && r.band == Red
  {
    var limit := EffectiveLimit(storage, b);
    var spent := Spent(txs, b.id);
    var pct := Pct(spent, limit);
    BucketStatus(b.id, limit, spent, pct, BandOf(pct), spent > limit)
  }

  /** The budget tab: one card per bucket, in bucket order. */
  function UpdateBudgets(txs: seq<Transaction>, storage: Storage): (r: seq<BucketStatus>)
    ensures |r| == |Buckets|
    ensures forall i :: 0 <= i < |r| ==> r[i] == Status(txs, storage, Buckets[i])
  {
    seq(|Buckets|, i requires 0 <= i < |Buckets| => Status(txs, storage, Buckets[i]))
  }

  /** The save button's acceptance test: non-empty, numeric, above zero. */
  predicate Acceptable(input: Text)
  {
    |input.chars| > 0 && input.number.Number? && input.number.value > 0.0
  }

  /** Saving a new limit for `category`: the input is stored as typed when
      acceptable; otherwise ("Please enter a valid amount.") nothing changes. */
  function SaveLimit(storage: Storage, category: string, input: Text): (r: Option<Storage>)
    ensures r.Some? <==> Acceptable(input)
    ensures r.Some? ==> r.value.Keys == storage.Keys + {LimitKey(category)}
    ensures r.Some? ==> r.value[LimitKey(category)] == input
    ensures r.Some? ==> forall k :: k in storage && k != LimitKey(category) ==> r.value[k] == storage[k]
  {
    if Acceptable(input) then Some(storage[LimitKey(category) := input])
    else None
  }

  /** Every stored budget limit reads as a positive number. */
  ghost predicate LimitsPositive(storage: Storage)
  {
    forall c :: LimitKey(c) in storage ==> storage[LimitKey(c)].number.Number? && storage[LimitKey(c)].number.value > 0.0
  }

  // ---- properties ----

  /** Income, other categories and missing categories contribute nothing. */
  lemma SpentIgnores(txs: seq<Transaction>, t: Transaction, category: string)
    requires !IsExpense(t) || t.category != Some(category)
    ensures Spent(txs + [t], category) == Spent(txs, category)
    ensures Spent([t] + txs, category) == Spent(txs, category)
  {
    FilterConcat(txs, [t], IsExpense);
    FilterConcat(Filter(txs, IsExpense), Filter([t], IsExpense), InCategory(category));
    FilterConcat([t], txs, IsExpense);
    FilterConcat(Filter([t], IsExpense), Filter(txs, IsExpense), InCategory(category));
    var p := InCategory(category);
    var rest := Filter(Filter(txs, IsExpense), p);
    assert Filter(Filter([t], IsExpense), p) == [];
    assert rest + [] == rest && [] + rest == rest;
  }

  /** An expense in the category adds exactly its amount. */
  lemma SpentCounts(txs: seq<Transaction>, t: Transaction, category: string)
    requires IsExpense(t) && t.category == Some(category)
    ensures Spent(txs + [t], category) == Spent(txs, category) + t.amount
    ensures Spent([t] + txs, category) == Spent(txs, category) + t.amount
  {
    var p := InCategory(category);
    FilterConcat(txs, [t], IsExpense);
    FilterConcat(Filter(txs, IsExpense), Filter([t], IsExpense), p);
    FilterConcat([t], txs, IsExpense);
    FilterConcat(Filter([t], IsExpense), Filter(txs, IsExpense), p);
    assert Filter(Filter([t], IsExpense), p) == [t];
    TotalConcat(Filter(Filter(txs, IsExpense), p), [t]);
    TotalConcat([t], Filter(Filter(txs, IsExpense), p));
  }

  /** The spend of a bucket is the same for every ordering of the records. */
  lemma SpentPermutation(a: seq<Transaction>, b: seq<Transaction>, category: string)
    requires multiset(a) == multiset(b)
    ensures Spent(a, category) == Spent(b, category)
  {
    FilterPermutation(a, b, IsExpense);
    FilteredTotalPermutation(Filter(a, IsExpense), Filter(b, IsExpense), InCategory(category));
  }

  lemma SpentNonNegative(txs: seq<Transaction>, category: string)
    requires NonNegative(txs)
    ensures Spent(txs, category) >= 0.0
  {
    FilterNonNegative(txs, IsExpense);
    FilterNonNegative(Filter(txs, IsExpense), InCategory(category));
    TotalNonNegative(Filter(Filter(txs, IsExpense), InCategory(category)));
  }

  /** Spending exactly the limit fills the bar and turns it red, but does not
      raise the over-limit alert. */
  lemma ExactlyAtLimit(txs: seq<Transaction>, storage: Storage, b: Bucket)
    requires b.fallback > 0.0
    requires Spent(txs, b.id) == EffectiveLimit(storage, b) > 0.0
    ensures Status(txs, storage, b).pct == 100.0
    ensures Status(txs, storage, b).band == Red
    ensures !Status(txs, storage, b).overLimit
  {
  }

  /** With non-negative amounts and a positive limit the bar is between 0 and 100. */
  lemma PctInRange(txs: seq<Transaction>, storage: Storage, b: Bucket)
    requires b.fallback > 0.0 && NonNegative(txs) && EffectiveLimit(storage, b) > 0.0
    ensures 0.0 <= Status(txs, storage, b).pct <= 100.0
  {
    SpentNonNegative(txs, b.id);
  }

  /** Food spending of 6000 against the default 5000: full red bar and the alert. */
  lemma FoodOverDefault(txs: seq<Transaction>, storage: Storage)
    requires LimitKey("food") !in storage
    requires Spent(txs, "food") == 6000.0
    ensures UpdateBudgets(txs, storage)[0] == BucketStatus("food", 5000.0, 6000.0, 100.0, Red, true)
  {
  }

  /** A limit that was saved is the limit the bucket then uses. */
  lemma SavedLimitIsUsed(storage: Storage, b: Bucket, input: Text)
    requires b.fallback > 0.0 && Acceptable(input)
    ensures SaveLimit(storage, b.id, input).Some?
    ensures EffectiveLimit(SaveLimit(storage, b.id, input).value, b) == input.number.value
  {
  }

  /** Saving a limit for one category leaves every other bucket's limit alone. */
  lemma SaveLimitLeavesOthers(storage: Storage, category: string, input: Text, b: Bucket)
    requires b.fallback > 0.0 && b.id != category && Acceptable(input)
    ensures EffectiveLimit(SaveLimit(storage, category, input).value, b) == EffectiveLimit(storage, b)
  {
    if LimitKey(b.id) == LimitKey(category) {
      LimitKeyInjective(b.id, category);
    }
  }

  /** Storage written only through the save dialog keeps every limit positive. */
  lemma SaveLimitKeepsLimitsPositive(storage: Storage, category: string, input: Text)
    requires LimitsPositive(storage)
    ensures SaveLimit(storage, category, input).Some? ==> LimitsPositive(SaveLimit(storage, category, input).value)
  {
  }

  /** Under positive stored limits no bucket divides by a non-positive limit,
      and the alert implies a full red bar. */
  lemma PositiveLimitsGiveConsistentCards(txs: seq<Transaction>, storage: Storage, i: int)
    requires LimitsPositive(storage) && 0 <= i < |Buckets|
    ensures UpdateBudgets(txs, storage)[i].limit > 0.0
    ensures UpdateBudgets(txs, storage)[i].overLimit ==> UpdateBudgets(txs, storage)[i].band == Red
  {
  }
}
