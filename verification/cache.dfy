/** The client's in-memory copy of the signed-in user's records and how the
    add and delete handlers update it. */
module Cache {
  import opened Seqs
  import opened Records

  /** `transactions.unshift(savedTx)`: the stored record goes in front. */
  function AfterAdd(cache: seq<Transaction>, saved: Transaction): (r: seq<Transaction>)
    ensures |r| == |cache| + 1
    ensures r[0] == saved && r[1..] == cache
    ensures multiset(r) == multiset(cache) + multiset{saved}
  {
    [saved] + cache
  }

  function HasOtherId(id: nat): Transaction -> bool
  {
    (t: Transaction) => t.id != id
  }

  /** `transactions.filter(t => t.id !== id)`: every record with that id goes,
      the others stay in their order. */
  function AfterDelete(cache: seq<Transaction>, id: nat): (r: seq<Transaction>)
    ensures forall t :: t in r <==> t in cache && t.id != id
    ensures forall t: Transaction :: t.id != id ==> multiset(r)[t] == multiset(cache)[t]
    ensures forall t: Transaction :: t.id == id ==> multiset(r)[t] == 0
    ensures IsSubsequence(r, cache)
  {
    var r := Filter(cache, HasOtherId(id));
    FilterIsSubsequence(cache, HasOtherId(id));
    forall t
      ensures multiset(r)[t] == if t.id != id then multiset(cache)[t] else 0
    {
      FilterCount(cache, HasOtherId(id), t);
    }
    r
  }

  // ---- properties ----

  /** Deleting twice is deleting once. */
  lemma DeleteIdempotent(cache: seq<Transaction>, id: nat)
    ensures AfterDelete(AfterDelete(cache, id), id) == AfterDelete(cache, id)
  {
    FilterIdempotent(cache, HasOtherId(id));
  }

  /** Deleting a record that was just added with a fresh id gives back the
      cache as it was. */
  lemma DeleteUndoesAdd(cache: seq<Transaction>, saved: Transaction)
    requires forall t :: t in cache ==> t.id != saved.id
    ensures AfterDelete(AfterAdd(cache, saved), saved.id) == cache
  {
    FilterConcat([saved], cache, HasOtherId(saved.id));
    assert Filter([saved], HasOtherId(saved.id)) == [];
    FilterKeepsAll(cache, HasOtherId(saved.id));
  }

  /** Deleting one id leaves a record with a different id untouched, whichever
      order the two handlers ran in. */
  lemma DeletesCommute(cache: seq<Transaction>, a: nat, b: nat)
    ensures AfterDelete(AfterDelete(cache, a), b) == AfterDelete(AfterDelete(cache, b), a)
  {
    var both := (t: Transaction) => t.id != a && t.id != b;
    FilterStronger(cache, HasOtherId(a), both);
    FilterStronger(cache, HasOtherId(b), both);
    FilterSame(Filter(cache, HasOtherId(a)), HasOtherId(b), both);
    FilterSame(Filter(cache, HasOtherId(b)), HasOtherId(a), both);
  }

  /** Two filters that agree on the elements of `s` select the same elements. */
  lemma {:induction false} FilterSame(s: seq<Transaction>, p: Transaction -> bool, q: Transaction -> bool)
    requires forall i :: 0 <= i < |s| ==> p(s[i]) == q(s[i])
    ensures Filter(s, p) == Filter(s, q)
    decreases |s|
  {
    if |s| > 0 {
      FilterSame(s[1..], p, q);
    }
  }
}
