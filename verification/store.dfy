/** The server's two tables and the five routes' effects on them, with the
    database as an immutable value: each route is a function from the store
    (and the caller's verified identity) to the new store and the reply. */
module Store {
  import opened Seqs
  import opened Records
  import opened Auth

  /** One row of the `users` table; `passwordHash` is the bcrypt hash. */
  datatype User = User(id: nat, email: string, passwordHash: string)

  /** The database: both tables and the next values of their id sequences. */
  datatype Db = Db(users: seq<User>, txs: seq<Transaction>, nextUserId: nat, nextTxId: nat)

  /** A JSON reply body. `UserPublic` has no field for password material. */
  datatype Body =
    | UserPublic(id: nat, email: string)
    | TokenIssued(token: string, email: string)
    | Rows(rows: seq<Transaction>)
    | Row(row: Transaction)
    | Message(text: string)

  /** A reply: 200 with a body, or an error status with its message. */
  datatype Reply = Ok(body: Body) | Error(status: nat, message: string)

  /** The fields the add route reads from the request body, and a `user_id`
      the client may put there too, which the route ignores. */
  datatype TxBody = TxBody(
    description: string, amount: real, kind: string, category: Option<string>, userId: Option<nat>)

  /** The table constraints: unique emails and ids, ids below their sequence's next value. */
  ghost predicate Valid(db: Db)
  {
    && (forall i, j :: 0 <= i < j < |db.users| ==> db.users[i].email != db.users[j].email)
    && (forall i, j :: 0 <= i < j < |db.users| ==> db.users[i].id != db.users[j].id)
    && (forall i :: 0 <= i < |db.users| ==> db.users[i].id < db.nextUserId)
    && UniqueIds(db.txs)
    && (forall t :: t in db.txs ==> t.id < db.nextTxId)
  }

  /** No two rows share an id. */
  ghost predicate UniqueIds(s: seq<Transaction>)
    decreases |s|
  {
    |s| == 0 || ((forall t :: t in s[1..] ==> t.id != s[0].id) && UniqueIds(s[1..]))
  }

  /** Under unique ids, a row is determined by its id. */
  lemma {:induction false} SameIdSameRow(s: seq<Transaction>, u: Transaction, t: Transaction)
    requires UniqueIds(s) && u in s && t in s && u.id == t.id
    ensures u == t
    decreases |s|
  {
    if u != s[0] && t != s[0] {
      SameIdSameRow(s[1..], u, t);
    }
  }

  lemma {:induction false} FilterKeepsUniqueIds(s: seq<Transaction>, keep: Transaction -> bool)
    requires UniqueIds(s)
    ensures UniqueIds(Filter(s, keep))
    decreases |s|
  {
    if |s| > 0 {
      FilterKeepsUniqueIds(s[1..], keep);
      if keep(s[0]) {
        assert Filter(s, keep)[1..] == Filter(s[1..], keep);
      } else {
        assert Filter(s, keep) == Filter(s[1..], keep);
      }
    }
  }

  lemma {:induction false} AppendKeepsUniqueIds(s: seq<Transaction>, x: Transaction)
    requires UniqueIds(s) && forall t :: t in s ==> t.id != x.id
    ensures UniqueIds(s + [x])
    decreases |s|
  {
    if |s| == 0 {
      assert [] + [x] == [x];
    } else {
      assert (s + [x])[1..] == s[1..] + [x];
      AppendKeepsUniqueIds(s[1..], x);
    }
  }

  /** `SELECT * FROM users WHERE email = $1`, first row. */
  function FindUser(users: seq<User>, email: string): (r: Option<User>)
    ensures r.Some? ==> r.value in users && r.value.email == email
    ensures r.None? <==> forall u :: u in users ==> u.email != email
    decreases |users|
  {
    if |users| == 0 then None
    else if users[0].email == email then Some(users[0])
    else FindUser(users[1..], email)
  }

  /** POST /api/register. A taken email violates the unique constraint
      (error 23505) and nothing is inserted, but the id the insert drew from
      the sequence is spent all the same. */
  function Register(db: Db, email: string, password: string, c: Crypto): (r: (Db, Reply))
    ensures FindUser(db.users, email).Some? ==>
      r == (db.(nextUserId := db.nextUserId + 1), Error(400, "Email already exists"))
    ensures r.0.nextUserId == db.nextUserId + 1
    ensures FindUser(db.users, email).None? ==>
      && r.0 == db.(users := db.users + [User(db.nextUserId, email, c.hash(password))], nextUserId := db.nextUserId + 1)
      && r.1 == Ok(UserPublic(db.nextUserId, email))
  {
    var hashed := c.hash(password);
    if FindUser(db.users, email).Some? then (db.(nextUserId := db.nextUserId + 1), Error(400, "Email already exists"))
    else
      var user := User(db.nextUserId, email, hashed);
      (db.(users := db.users + [user], nextUserId := db.nextUserId + 1), Ok(UserPublic(user.id, user.email)))
  }

  /** POST /api/login: unknown email, wrong password, or a token over the user's id and email. */
  function Login(db: Db, email: string, password: string, c: Crypto): (r: Reply)
    ensures r.Ok? <==> FindUser(db.users, email).Some? && c.matches(password, FindUser(db.users, email).value.passwordHash)
    ensures FindUser(db.users, email).None? <==> r == Error(400, "User not found")
    ensures r == Error(400, "Invalid password") <==>
      FindUser(db.users, email).Some? && !c.matches(password, FindUser(db.users, email).value.passwordHash)
    ensures r.Ok? ==>
      exists u :: u in db.users && u.email == email && c.matches(password, u.passwordHash) && r.body == TokenIssued(c.sign(Claims(u.id, u.email)), u.email)
  {
    match FindUser(db.users, email)
    case None => Error(400, "User not found")
    case Some(u) =>
      if !c.matches(password, u.passwordHash) then Error(400, "Invalid password")
      else Ok(TokenIssued(c.sign(Claims(u.id, u.email)), u.email))
  }

  function OwnedBy(owner: nat): Transaction -> bool
  {
    (t: Transaction) => t.userId == owner
  }

  /** The rows of one user, in table order. */
  function Owned(db: Db, owner: nat): (r: seq<Transaction>)
    ensures forall t :: t in r <==> t in db.txs && t.userId == owner
  {
    Filter(db.txs, OwnedBy(owner))
  }

  /** `a` may come before `b` under `ORDER BY date DESC`: PostgreSQL puts NULL
      dates first in descending order. */
  predicate ListsBefore(a: Transaction, b: Transaction)
  {
    a.date.None? || (b.date.Some? && a.date.value.instant >= b.date.value.instant)
  }

  ghost predicate SortedByDateDesc(s: seq<Transaction>)
  {
    forall i, j :: 0 <= i < j < |s| ==> ListsBefore(s[i], s[j])
  }

  /** Insert `x` into a sorted list in front of the first row it may precede. */
  function InsertByDate(x: Transaction, s: seq<Transaction>): (r: seq<Transaction>)
    requires SortedByDateDesc(s)
    ensures SortedByDateDesc(r)
    ensures multiset(r) == multiset(s) + multiset{x}
    decreases |s|
  {
    if |s| == 0 then [x]
    else if ListsBefore(x, s[0]) then
      assert forall j :: 0 <= j < |s| ==> ListsBefore(x, s[j]) by {
        forall j | 0 <= j < |s| ensures ListsBefore(x, s[j]) {
          if j > 0 { assert ListsBefore(s[0], s[j]); }
        }
      }
      [x] + s
    else
      assert s == [s[0]] + s[1..];
      var tail := InsertByDate(x, s[1..]);
      assert forall t :: t in multiset(tail) ==> ListsBefore(s[0], t) by {
        forall t | t in multiset(tail) ensures ListsBefore(s[0], t) {
          if t != x { assert t in s[1..]; }
        }
      }
      [s[0]] + tail
  }

  /** Order rows by date, most recent first. */
  function SortByDate(s: seq<Transaction>): (r: seq<Transaction>)
    ensures SortedByDateDesc(r)
    ensures multiset(r) == multiset(s)
    decreases |s|
  {
    if |s| == 0 then []
    else
      assert s == [s[0]] + s[1..];
      InsertByDate(s[0], SortByDate(s[1..]))
  }

  /** A correct answer to `SELECT * FROM transactions WHERE user_id = $1
      ORDER BY date DESC`: exactly the owner's rows, most recent first. Rows
      with equal dates may come in any order. */
  ghost predicate IsListing(rows: seq<Transaction>, db: Db, owner: nat)
  {
    multiset(rows) == multiset(Owned(db, owner)) && SortedByDateDesc(rows)
  }

  /** GET /api/transactions. */
  function List(db: Db, caller: Claims): (r: Reply)
    ensures r.Ok? && r.body.Rows?
    ensures IsListing(r.body.rows, db, caller.id)
    ensures forall t :: t in r.body.rows <==> t in db.txs && t.userId == caller.id
  {
    var rows := SortByDate(Owned(db, caller.id));
    assert forall t :: t in rows <==> t in multiset(Owned(db, caller.id));
    Ok(Rows(rows))
  }

  /** POST /api/transactions: insert one row owned by the caller, whatever the
      body says, with no check of `amount` or `type`. The column defaults of
      `date` and `created_at` are parameters. */
  function Add(db: Db, caller: Claims, body: TxBody, date: Option<Stamp>, createdAt: Stamp): (r: (Db, Reply))
    ensures r.1.Ok? && r.1.body.Row?
    ensures r.0.txs == db.txs + [r.1.body.row]
    ensures r.1.body.row.userId == caller.id && r.1.body.row.id == db.nextTxId
    ensures r.1.body.row.description == body.description && r.1.body.row.amount == body.amount
            && r.1.body.row.kind == body.kind && r.1.body.row.category == body.category
    ensures r.1.body.row.date == date && r.1.body.row.createdAt == createdAt
    ensures r.0.users == db.users && r.0.nextUserId == db.nextUserId && r.0.nextTxId == db.nextTxId + 1
  {
    var row := Transaction(db.nextTxId, caller.id, body.description, body.amount, body.kind, body.category, date, createdAt);
    (db.(txs := db.txs + [row], nextTxId := db.nextTxId + 1), Ok(Row(row)))
  }

  /** The rows `DELETE ... WHERE id = $1 AND user_id = $2` keeps. */
  function Survives(id: nat, caller: nat): Transaction -> bool
  {
    (t: Transaction) => !(t.id == id && t.userId == caller)
  }

  /** DELETE /api/transactions/:id: a row counts only if it has that id and
      belongs to the caller; no such row gives 404 and leaves the table as it was. */
  function Delete(db: Db, caller: Claims, id: nat): (r: (Db, Reply))
    ensures r.1.Error? <==> forall t :: t in db.txs ==> !(t.id == id && t.userId == caller.id)
    ensures r.1.Error? ==> r == (db, Error(404, "Not found or not authorized"))
    ensures r.1.Ok? ==> r.1 == Ok(Message("Deleted"))
    ensures r.0.users == db.users && r.0.nextUserId == db.nextUserId && r.0.nextTxId == db.nextTxId
    ensures forall t :: t in r.0.txs <==> t in db.txs && !(t.id == id && t.userId == caller.id)
  {
    var kept := Filter(db.txs, Survives(id, caller.id));
    var rowCount := |db.txs| - |kept|;
    if rowCount == 0 then
      NothingDeleted(db.txs, Survives(id, caller.id));
      (db, Error(404, "Not found or not authorized"))
    else
      SomethingDeleted(db.txs, Survives(id, caller.id));
      (db.(txs := kept), Ok(Message("Deleted")))
  }

  /** A filter that keeps fewer elements than it was given rejected one. */
  lemma SomethingDeleted(s: seq<Transaction>, keep: Transaction -> bool)
    requires |Filter(s, keep)| < |s|
    ensures exists t :: t in s && !keep(t)
  {
  }

  /** A filter that keeps as many elements as it was given rejected none. */
  lemma {:induction false} NothingDeleted(s: seq<Transaction>, keep: Transaction -> bool)
    requires |Filter(s, keep)| == |s|
    ensures forall t :: t in s ==> keep(t)
    ensures Filter(s, keep) == s
    decreases |s|
  {
    if |s| > 0 {
      assert |Filter(s[1..], keep)| <= |s[1..]|;
      NothingDeleted(s[1..], keep);
      assert s == [s[0]] + s[1..];
    }
  }
}
