/** The server as a state machine: a request goes through the authentication
    middleware when its route is protected and then to its route; a run is a
    sequence of requests served one after another against one database. */
module Server {
  import opened Seqs
  import opened Records
  import opened Auth
  import opened Store

  /** What a protected route is asked to do once the caller is known. */
  datatype Action =
    | ListTxs
    | AddTx(body: TxBody, date: Option<Stamp>, createdAt: Stamp)
    | DeleteTx(id: nat)

  /** A request: the two open routes, or a protected route with the
      `Authorization` header as sent. */
  datatype Request =
    | RegisterReq(email: string, password: string)
    | LoginReq(email: string, password: string)
    | Authorized(auth: Option<string>, action: Action)

  /** A protected route, run as `caller`. */
  function Route(db: Db, caller: Claims, action: Action): (r: (Db, Reply))
    ensures r.0.users == db.users && r.0.nextUserId == db.nextUserId
    ensures action.ListTxs? ==> r.0 == db && r.1.Ok? && r.1.body.Rows? && IsListing(r.1.body.rows, db, caller.id)
    ensures action.AddTx? ==> r == Add(db, caller, action.body, action.date, action.createdAt)
    ensures action.DeleteTx? ==> r == Delete(db, caller, action.id)
    ensures forall t :: t in r.0.txs && t !in db.txs ==> t.userId == caller.id
    ensures forall t :: t in db.txs && t !in r.0.txs ==> t.userId == caller.id
  {
    match action
    case ListTxs => (db, List(db, caller))
    case AddTx(body, date, createdAt) => Add(db, caller, body, date, createdAt)
    case DeleteTx(id) => Delete(db, caller, id)
  }

  /** The identity a request acts as: the verified claims' id on a protected
      route, none on the open routes or when authentication fails. */
  function Actor(c: Crypto, req: Request): Option<nat>
  {
    if req.Authorized? && Authenticate(req.auth, c).Authenticated?
    then Some(Authenticate(req.auth, c).claims.id)
    else None
  }

  /** Serve one request. */
  function Step(db: Db, c: Crypto, req: Request): (r: (Db, Reply))
    ensures req.Authorized? && Authenticate(req.auth, c).Unauthenticated? ==> r == (db, Error(401, "Unauthorized"))
    ensures req.Authorized? && Authenticate(req.auth, c).Forbidden? ==> r == (db, Error(403, "Forbidden"))
    ensures !req.Authorized? ==> r.0.txs == db.txs && r.0.nextTxId == db.nextTxId
    ensures req.Authorized? ==> r.0.users == db.users && r.0.nextUserId == db.nextUserId
    ensures Actor(c, req).None? ==> r.0.txs == db.txs
    ensures req.Authorized? && Authenticate(req.auth, c).Authenticated? ==>
              r == Route(db, Authenticate(req.auth, c).claims, req.action)
    ensures req.RegisterReq? ==> r == Register(db, req.email, req.password, c)
    ensures req.LoginReq? ==> r == (db, Login(db, req.email, req.password, c))
  {
    match req
    case RegisterReq(email, password) => Register(db, email, password, c)
    case LoginReq(email, password) => (db, Login(db, email, password, c))
    case Authorized(auth, action) =>
      match Authenticate(auth, c)
      case Unauthenticated => (db, Error(401, "Unauthorized"))
      case Forbidden => (db, Error(403, "Forbidden"))
      case Authenticated(caller) => Route(db, caller, action)
  }

  /** Serve the requests in order; one reply per request. */
  function Run(db: Db, c: Crypto, reqs: seq<Request>): (r: (Db, seq<Reply>))
    ensures |r.1| == |reqs|
    decreases |reqs|
  {
    if |reqs| == 0 then (db, [])
    else
      var (db1, reply) := Step(db, c, reqs[0]);
      var (dbN, replies) := Run(db1, c, reqs[1..]);
      (dbN, [reply] + replies)
  }

  /** A request carrying a token the server signed reaches its route as the
      signed identity. */
  lemma SignedRequestIsServed(db: Db, c: Crypto, cl: Claims, action: Action)
    requires Sound(c)
    ensures Step(db, c, Authorized(Some(AuthHeader(c.sign(cl))), action)) == Route(db, cl, action)
  {
    SignedTokenAuthenticates(c, cl);
  }

  /** A run with one more request is the run followed by one step: the last
      request is served against the state the earlier ones left. */
  lemma {:induction false} RunSnoc(db: Db, c: Crypto, reqs: seq<Request>, req: Request)
    ensures Run(db, c, reqs + [req]).0 == Step(Run(db, c, reqs).0, c, req).0
    ensures Run(db, c, reqs + [req]).1 == Run(db, c, reqs).1 + [Step(Run(db, c, reqs).0, c, req).1]
    decreases |reqs|
  {
    if |reqs| == 0 {
      assert reqs + [req] == [req];
      assert [req][1..] == [];
    } else {
      var (db1, r1) := Step(db, c, reqs[0]);
      assert (reqs + [req])[1..] == reqs[1..] + [req];
      var tail := Run(db1, c, reqs[1..]);
      assert Run(db, c, reqs) == (tail.0, [r1] + tail.1);
      RunSnoc(db1, c, reqs[1..], req);
    }
  }

  // ---- the table constraints are kept ----

  lemma StepKeepsValid(db: Db, c: Crypto, req: Request)
    requires Valid(db)
    ensures Valid(Step(db, c, req).0)
  {
    match req
    case RegisterReq(email, password) =>
      if FindUser(db.users, email).None? {
        var db' := Step(db, c, req).0;
        assert forall i :: 0 <= i < |db.users| ==> db.users[i] in db.users;
        assert db'.users == db.users + [User(db.nextUserId, email, c.hash(password))];
      }
    case LoginReq(_, _) =>
    case Authorized(auth, action) =>
      if Authenticate(auth, c).Authenticated? {
        var caller := Authenticate(auth, c).claims;
        match action
        case ListTxs =>
        case AddTx(body, date, createdAt) =>
          AppendKeepsUniqueIds(db.txs, Add(db, caller, body, date, createdAt).1.body.row);
        case DeleteTx(id) =>
          FilterKeepsUniqueIds(db.txs, Survives(id, caller.id));
      }
  }

  lemma {:induction false} RunKeepsValid(db: Db, c: Crypto, reqs: seq<Request>)
    requires Valid(db)
    ensures Valid(Run(db, c, reqs).0)
    decreases |reqs|
  {
    if |reqs| > 0 {
      StepKeepsValid(db, c, reqs[0]);
      RunKeepsValid(Step(db, c, reqs[0]).0, c, reqs[1..]);
    }
  }

  // ---- isolation ----

  /** A request that does not act as `owner` leaves `owner`'s rows as they were. */
  lemma StepIsolation(db: Db, c: Crypto, req: Request, owner: nat)
    requires Actor(c, req) != Some(owner)
    ensures Owned(Step(db, c, req).0, owner) == Owned(db, owner)
  {
    if req.Authorized? && Authenticate(req.auth, c).Authenticated? {
      var caller := Authenticate(req.auth, c).claims;
      assert caller.id != owner;
      match req.action
      case ListTxs =>
      case AddTx(body, date, createdAt) =>
        var row := Add(db, caller, body, date, createdAt).1.body.row;
        FilterConcat(db.txs, [row], OwnedBy(owner));
        assert Filter([row], OwnedBy(owner)) == [];
        assert Owned(db, owner) + [] == Owned(db, owner);
      case DeleteTx(id) =>
        if Delete(db, caller, id).1.Ok? {
          FilterStronger(db.txs, Survives(id, caller.id), OwnedBy(owner));
        }
    }
  }

  /** Over any run in which no request acts as `owner`, `owner`'s rows and
      `owner`'s listing stay exactly as they were. */
  lemma {:induction false} RunIsolation(db: Db, c: Crypto, reqs: seq<Request>, owner: Claims)
    requires forall i :: 0 <= i < |reqs| ==> Actor(c, reqs[i]) != Some(owner.id)
    ensures Owned(Run(db, c, reqs).0, owner.id) == Owned(db, owner.id)
    ensures List(Run(db, c, reqs).0, owner) == List(db, owner)
    decreases |reqs|
  {
    if |reqs| > 0 {
      StepIsolation(db, c, reqs[0], owner.id);
      RunIsolation(Step(db, c, reqs[0]).0, c, reqs[1..], owner);
    }
  }

  /** Every listing a run hands out holds only the rows of the identity the
      request authenticated as. */
  lemma {:induction false} RunListingsAreScoped(db: Db, c: Crypto, reqs: seq<Request>)
    ensures forall i :: 0 <= i < |reqs| && reqs[i].Authorized? && reqs[i].action == ListTxs
                        && Run(db, c, reqs).1[i].Ok? && Run(db, c, reqs).1[i].body.Rows? ==>
              forall t :: t in Run(db, c, reqs).1[i].body.rows ==> Actor(c, reqs[i]) == Some(t.userId)
    decreases |reqs|
  {
    if |reqs| > 0 {
      RunListingsAreScoped(Step(db, c, reqs[0]).0, c, reqs[1..]);
      var replies := Run(db, c, reqs).1;
      assert replies[0] == Step(db, c, reqs[0]).1;
      assert forall i :: 1 <= i < |reqs| ==> replies[i] == Run(Step(db, c, reqs[0]).0, c, reqs[1..]).1[i - 1];
      assert forall i :: 1 <= i < |reqs| ==> reqs[i] == reqs[1..][i - 1];
    }
  }

  /** Another user's row cannot be deleted: the reply is the same 404 as for
      an id that does not exist, and nothing changes. */
  lemma CannotDeleteOthersRow(db: Db, caller: Claims, t: Transaction)
    requires Valid(db) && t in db.txs && t.userId != caller.id
    ensures Delete(db, caller, t.id) == (db, Error(404, "Not found or not authorized"))
    ensures Delete(db, caller, db.nextTxId) == Delete(db, caller, t.id)
  {
    forall u | u in db.txs && u.id == t.id
      ensures u == t
    {
      SameIdSameRow(db.txs, u, t);
    }
  }

  // ---- credentials ----

  lemma FindUserAfterAppend(users: seq<User>, u: User, email: string)
    requires FindUser(users, email).None? && u.email == email
    ensures FindUser(users + [u], email) == Some(u)
  {
  }

  /** A fresh registration can log in with the same password, and the token
      it receives authenticates as exactly the new user's id and email. */
  lemma RegisterThenLogin(db: Db, c: Crypto, email: string, password: string)
    requires Sound(c) && FindUser(db.users, email).None?
    ensures var (db', reply) := Register(db, email, password, c);
      && reply == Ok(UserPublic(db.nextUserId, email))
      && Login(db', email, password, c) == Ok(TokenIssued(c.sign(Claims(db.nextUserId, email)), email))
      && Authenticate(Some(AuthHeader(c.sign(Claims(db.nextUserId, email)))), c) == Authenticated(Claims(db.nextUserId, email))
  {
    var u := User(db.nextUserId, email, c.hash(password));
    FindUserAfterAppend(db.users, u, email);
    SignedTokenAuthenticates(c, Claims(db.nextUserId, email));
  }

  /** With unique emails, a successful login's token is over the one user with
      that email, and a second registration of the email is refused. */
  lemma LoginIdentifiesUser(db: Db, c: Crypto, email: string, password: string, u: User)
    requires Valid(db) && u in db.users && u.email == email
    ensures Login(db, email, password, c).Ok? <==> c.matches(password, u.passwordHash)
    ensures Login(db, email, password, c).Ok? ==>
      Login(db, email, password, c).body == TokenIssued(c.sign(Claims(u.id, email)), email)
    ensures Register(db, email, password, c) == (db.(nextUserId := db.nextUserId + 1), Error(400, "Email already exists"))
  {
  }
}
