/** The server's authentication middleware and the cryptographic primitives it
    relies on. Password hashing and token signing are not modelled: they are
    the fields of a `Crypto` value, and `Sound` states the round-trip laws the
    rest of the model assumes of them. */
module Auth {
  import opened Seqs

  /** The claims a session token carries: the user's id and email. */
  datatype Claims = Claims(id: nat, email: string)

  /** bcrypt (`hash`, `matches` for `compare`) and JWT (`sign`, `verify`) as
      abstract functions of one fixed signing key. */
  datatype Crypto = Crypto(
    hash: string -> string,
    matches: (string, string) -> bool,
    sign: Claims -> string,
    verify: string -> Option<Claims>)

  /** A password matches its own hash; a signed token verifies to its claims;
      a token is a non-empty word without spaces. */
  ghost predicate Sound(c: Crypto)
  {
    && (forall p :: c.matches(p, c.hash(p)))
    && (forall cl :: c.verify(c.sign(cl)) == Some(cl))
    && (forall cl :: c.sign(cl) != "" && ' ' !in c.sign(cl))
  }

  /** How the middleware answers: 401, 403, or the request goes on as `claims`. */
  datatype AuthResult = Unauthenticated | Forbidden | Authenticated(claims: Claims)

  /** `s.split(' ')`: the pieces between single spaces, empty pieces included. */
  function Split(s: string): (r: seq<string>)
    ensures |r| >= 1
    ensures forall i :: 0 <= i < |r| ==> ' ' !in r[i]
    decreases |s|
  {
    if |s| == 0 then [""]
    else
      var rest := Split(s[1..]);
      if s[0] == ' ' then [""] + rest
      else [[s[0]] + rest[0]] + rest[1..]
  }

  /** `pieces.join(' ')`. */
  function Join(pieces: seq<string>): string
    requires |pieces| >= 1
    decreases |pieces|
  {
    if |pieces| == 1 then pieces[0] else pieces[0] + " " + Join(pieces[1..])
  }

  /** `authHeader && authHeader.split(' ')[1]`, then `if (!token)`: no header,
      an empty header, a header with one piece and an empty second piece all
      give no token. The first piece ("Bearer") is not checked. */
  function BearerToken(header: Option<string>): (r: Option<string>)
    ensures r.Some? ==> r.value != "" && ' ' !in r.value
    ensures header.None? ==> r.None?
    ensures r.Some? ==> header.Some? && |Split(header.value)| >= 2 && r.value == Split(header.value)[1]
    ensures header.Some? && |Split(header.value)| >= 2 && Split(header.value)[1] != "" ==>
              r == Some(Split(header.value)[1])
  {
    match header
    case None => None
    case Some(h) =>
      if h == "" then None
      else
        var pieces := Split(h);
        if |pieces| < 2 || pieces[1] == "" then None else Some(pieces[1])
  }

  /** `authenticateToken`: 401 without a token, 403 when it does not verify,
      otherwise the verified claims. */
  function Authenticate(header: Option<string>, c: Crypto): (r: AuthResult)
    ensures r.Unauthenticated? <==> BearerToken(header).None?
    ensures r.Forbidden? <==> BearerToken(header).Some? && c.verify(BearerToken(header).value).None?
    ensures r.Authenticated? ==> c.verify(BearerToken(header).value) == Some(r.claims)
  {
    match BearerToken(header)
    case None => Unauthenticated
    case Some(token) =>
      match c.verify(token)
      case None => Forbidden
      case Some(claims) => Authenticated(claims)
  }

  /** The `Authorization` header the client sends: `Bearer ${token}`. Its
      pieces are the scheme followed by the token's own pieces. */
  function AuthHeader(token: string): (r: string)
    ensures Split(r) == ["Bearer"] + Split(token)
  {
    SplitWordSpace("Bearer", token);
    assert "Bearer" + " " + token == "Bearer " + token;
    "Bearer " + token
  }

  // ---- properties ----

  /** Joining the pieces of a split gives back the string. */
  lemma {:induction false} JoinSplit(s: string)
    ensures Join(Split(s)) == s
    decreases |s|
  {
    if |s| > 0 {
      JoinSplit(s[1..]);
      var rest := Split(s[1..]);
      if s[0] == ' ' {
        assert Split(s)[1..] == rest;
        assert s == [' '] + s[1..];
      } else {
        var r := Split(s);
        assert r[0] == [s[0]] + rest[0];
        if |rest| == 1 {
          assert s == [s[0]] + rest[0];
        } else {
          assert r[1..] == rest[1..];
          assert Join(rest) == rest[0] + " " + Join(rest[1..]);
          assert s == [s[0]] + s[1..];
        }
      }
    }
  }

  /** A word without spaces splits into itself. */
  lemma {:induction false} SplitWord(w: string)
    requires ' ' !in w
    ensures Split(w) == [w]
    decreases |w|
  {
    if |w| > 0 {
      SplitWord(w[1..]);
      assert [w[0]] + w[1..] == w;
    }
  }

  /** A word followed by a space splits off as the first piece. */
  lemma {:induction false} SplitWordSpace(w: string, rest: string)
    requires ' ' !in w
    ensures Split(w + " " + rest) == [w] + Split(rest)
    decreases |w|
  {
    var s := w + " " + rest;
    if |w| == 0 {
      assert s == " " + rest;
      assert s[1..] == rest;
    } else {
      assert s[1..] == w[1..] + " " + rest;
      SplitWordSpace(w[1..], rest);
      assert [w[0]] + w[1..] == w;
    }
  }

  /** Splitting a join of space-free pieces gives back the pieces. */
  lemma {:induction false} SplitJoin(pieces: seq<string>)
    requires |pieces| >= 1
    requires forall i :: 0 <= i < |pieces| ==> ' ' !in pieces[i]
    ensures Split(Join(pieces)) == pieces
    decreases |pieces|
  {
    if |pieces| == 1 {
      SplitWord(pieces[0]);
    } else {
      SplitJoin(pieces[1..]);
      SplitWordSpace(pieces[0], Join(pieces[1..]));
    }
  }

  /** The server reads back the token the client put in its header. */
  lemma BearerTokenOfAuthHeader(token: string)
    requires token != "" && ' ' !in token
    ensures BearerToken(Some(AuthHeader(token))) == Some(token)
  {
    SplitWord(token);
  }

  /** A header carrying a signed token authenticates as the signed claims. */
  lemma SignedTokenAuthenticates(c: Crypto, cl: Claims)
    requires Sound(c)
    ensures Authenticate(Some(AuthHeader(c.sign(cl))), c) == Authenticated(cl)
  {
    BearerTokenOfAuthHeader(c.sign(cl));
  }

  /** A dashboard left open after its token was removed from local storage
      (by a logout in another tab, say) sends `Bearer null`: that is a token,
      so the answer is 403, not 401, unless "null" happens to verify. */
  lemma LoggedOutClientIsForbidden(c: Crypto)
    requires c.verify("null").None?
    ensures Authenticate(Some(AuthHeader("null")), c) == Forbidden
  {
    BearerTokenOfAuthHeader("null");
  }

  /** Headers that yield 401: none, empty, a single word, or two spaces after the scheme. */
  lemma MissingTokenScenarios(c: Crypto, tok: string)
    ensures Authenticate(None, c) == Unauthenticated
    ensures Authenticate(Some(""), c) == Unauthenticated
    ensures Authenticate(Some("Bearer"), c) == Unauthenticated
    ensures Authenticate(Some("Bearer  " + tok), c) == Unauthenticated
  {
    SplitWord("Bearer");
    SplitWordSpace("Bearer", " " + tok);
    SplitWordSpace("", tok);
    assert "Bearer" + " " + (" " + tok) == "Bearer  " + tok;
    assert "" + " " + tok == " " + tok;
  }
}
