/** How the client's figures relate to the server's tables: the cache updates
    keep the cache a correct listing, and every figure the dashboard derives
    from a listing is the same whichever order ties in `ORDER BY date` take. */
module Coherence {
  import opened Seqs
  import opened Records
  import opened Auth
  import opened Store
  import Cache
  import Budget
  import Insight
  import History
  import Server

  /** A filter of a list sorted by date is sorted by date. */
  lemma {:induction false} FilterKeepsSorted(s: seq<Transaction>, keep: Transaction -> bool)
    requires SortedByDateDesc(s)
    ensures SortedByDateDesc(Filter(s, keep))
    decreases |s|
  {
    if |s| > 0 {
      FilterKeepsSorted(s[1..], keep);
      var rest := Filter(s[1..], keep);
      if keep(s[0]) {
        var f := Filter(s, keep);
        assert f == [s[0]] + rest;
        forall j | 0 < j < |f|
          ensures ListsBefore(f[0], f[j])
        {
          assert f[j] in rest;
          var k :| 0 <= k < |s[1..]| && s[1..][k] == f[j];
          assert s[k + 1] == f[j];
        }
      }
    }
  }

  /** After the delete route and the cache's own filter, the cache is still a
      correct listing of the caller's rows. */
  lemma DeleteKeepsCacheCoherent(cache: seq<Transaction>, db: Db, caller: Claims, id: nat)
    requires IsListing(cache, db, caller.id)
    ensures IsListing(Cache.AfterDelete(cache, id), Delete(db, caller, id).0, caller.id)
  {
    var db' := Delete(db, caller, id).0;
    var after := Cache.AfterDelete(cache, id);
    FilterKeepsSorted(cache, Cache.HasOtherId(id));
    forall t
      ensures multiset(after)[t] == multiset(Owned(db', caller.id))[t]
    {
      DeleteCounts(cache, db, caller, id, t);
    }
    assert multiset(after) == multiset(Owned(db', caller.id));
  }

  /** One record's count on both sides of `DeleteKeepsCacheCoherent`. */
  lemma DeleteCounts(cache: seq<Transaction>, db: Db, caller: Claims, id: nat, t: Transaction)
    requires IsListing(cache, db, caller.id)
    ensures multiset(Cache.AfterDelete(cache, id))[t] == multiset(Owned(Delete(db, caller, id).0, caller.id))[t]
  {
    var db' := Delete(db, caller, id).0;
    assert multiset(cache)[t] == multiset(Owned(db, caller.id))[t];
    FilterCount(db.txs, OwnedBy(caller.id), t);
    FilterCount(db'.txs, OwnedBy(caller.id), t);
    if Delete(db, caller, id).1.Ok? {
      assert db'.txs == Filter(db.txs, Survives(id, caller.id));
      FilterCount(db.txs, Survives(id, caller.id), t);
    } else if t.id == id && t.userId == caller.id {
      assert t !in db.txs;
    }
  }

  /** The client filters its cache whatever the delete answered. When the
      request fails authentication (401, or 403 as for `Bearer null`), the
      server keeps the row but the cache drops it, so the cache is no longer
      a correct listing. */
  lemma RejectedDeleteDropsRow(cache: seq<Transaction>, db: Db, c: Crypto, auth: Option<string>, t: Transaction)
    requires IsListing(cache, db, t.userId) && t in db.txs
    requires !Authenticate(auth, c).Authenticated?
    ensures var (db', reply) := Server.Step(db, c, Server.Authorized(auth, Server.DeleteTx(t.id)));
      && db' == db && reply.Error? && (reply.status == 401 || reply.status == 403)
      && !IsListing(Cache.AfterDelete(cache, t.id), db', t.userId)
  {
    assert t in Owned(db, t.userId);
    assert multiset(Cache.AfterDelete(cache, t.id))[t] == 0;
  }

  /** After the add route and the cache's prepend, the cache is still a
      correct listing, provided the new row's date sorts first. */
  lemma AddKeepsCacheCoherent(cache: seq<Transaction>, db: Db, caller: Claims, body: TxBody,
                              date: Option<Stamp>, createdAt: Stamp)
    requires IsListing(cache, db, caller.id)
    requires forall t :: t in cache ==> date.None? || (t.date.Some? && date.value.instant >= t.date.value.instant)
    ensures var (db', reply) := Add(db, caller, body, date, createdAt);
      IsListing(Cache.AfterAdd(cache, reply.body.row), db', caller.id)
  {
    var (db', reply) := Add(db, caller, body, date, createdAt);
    var row := reply.body.row;
    FilterConcat(db.txs, [row], OwnedBy(caller.id));
    assert Filter([row], OwnedBy(caller.id)) == [row];
    var after := Cache.AfterAdd(cache, row);
    forall i, j | 0 <= i < j < |after|
      ensures ListsBefore(after[i], after[j])
    {
      if i == 0 {
        assert after[j] in cache;
      } else {
        assert after[i] == cache[i - 1] && after[j] == cache[j - 1];
      }
    }
  }

  /** Two correct listings of the same rows give the same budget cards, the
      same insight, the same chart and the same history totals. */
  lemma ListingFiguresAgree(a: seq<Transaction>, b: seq<Transaction>, db: Db, owner: nat,
                            storage: Budget.Storage, month: History.MonthChoice, year: int)
    requires IsListing(a, db, owner) && IsListing(b, db, owner)
    ensures Budget.UpdateBudgets(a, storage) == Budget.UpdateBudgets(b, storage)
    ensures Insight.GenerateAI(a) == Insight.GenerateAI(b)
    ensures Insight.Chart(a) == Insight.Chart(b)
    ensures History.PeriodTotal(a, month, year) == History.PeriodTotal(b, month, year)
  {
    forall i | 0 <= i < |Budget.Buckets|
      ensures Budget.Spent(a, Budget.Buckets[i].id) == Budget.Spent(b, Budget.Buckets[i].id)
    {
      Budget.SpentPermutation(a, b, Budget.Buckets[i].id);
    }
    Insight.DashboardPermutation(a, b);
    FilterPermutation(a, b, History.InPeriodOf(month, year));
    FilteredTotalPermutation(Filter(a, History.InPeriodOf(month, year)), Filter(b, History.InPeriodOf(month, year)), IsExpense);
  }
}
