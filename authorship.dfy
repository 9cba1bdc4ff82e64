/** Who is writing a comment or a review. The like, comment and review
    handlers decode the bearer token themselves rather than rely on
    `req.user`; they take the caller's id from the claims and pick the
    display name through a fallback chain. */
module Authorship {
  import opened Common
  import opened Accounts
  import opened Auth

  /** The `user` object some tokens nest their identity in. */
  datatype NestedUser = NestedUser(id: Option<Id>, username: Option<string>)

  /** The decoded claims of a verified token. */
  datatype Claims = Claims(userId: Option<Id>, user: Option<NestedUser>, id: Option<Id>, username: Option<string>)

  /** `decoded?.userId || decoded?.user?.id || decoded?.id`, with `None` for
      a missing or unverifiable token. */
  function ClaimedUserId(claims: Option<Claims>): (r: Option<Id>)
    ensures claims.None? ==> r.None?
    ensures r.Some? <==>
              claims.Some? &&
              (claims.value.userId.Some? ||
               (claims.value.user.Some? && claims.value.user.value.id.Some?) ||
               claims.value.id.Some?)
    ensures claims.Some? && claims.value.userId.Some? ==> r == claims.value.userId
    ensures claims.Some? && claims.value.userId.None? && claims.value.user.Some? && claims.value.user.value.id.Some? ==>
              r == claims.value.user.value.id
    ensures claims.Some? && claims.value.userId.None? && (claims.value.user.None? || claims.value.user.value.id.None?) ==>
              r == claims.value.id
  {
    if claims.None? then None
    else
      var c := claims.value;
      if c.userId.Some? then c.userId
      else if c.user.Some? && c.user.value.id.Some? then c.user.value.id
      else c.id
  }

  /** `decoded.username || decoded.user.username`, taken only when one of
      them is non-empty. */
  function TokenName(claims: Option<Claims>): (r: Option<string>)
    ensures r.Some? ==> Filled(r)
    ensures r.None? <==>
              claims.None? ||
              (!Filled(claims.value.username) && (claims.value.user.None? || !Filled(claims.value.user.value.username)))
    ensures claims.Some? && Filled(claims.value.username) ==> r == claims.value.username
    ensures claims.Some? && !Filled(claims.value.username) && claims.value.user.Some? &&
              Filled(claims.value.user.value.username) ==>
              r == claims.value.user.value.username
  {
    if claims.None? then None
    else if Filled(claims.value.username) then claims.value.username
    else if claims.value.user.Some? && Filled(claims.value.user.value.username) then claims.value.user.value.username
    else None
  }

  /** `SELECT username FROM users WHERE id = :id`, kept only when non-empty. */
  function StoredName(accounts: map<Id, Account>, id: Id): (r: Option<string>)
    ensures r.Some? ==> id in accounts && Filled(r) && r.value == accounts[id].username
    ensures id in accounts && accounts[id].username != "" ==> r == Some(accounts[id].username)
  {
    if id in accounts && accounts[id].username != "" then Some(accounts[id].username) else None
  }

  /** The first non-empty name among the body's, the token's and the stored
      one, else "Аноним". */
  function AuthorName(bodyName: Option<string>, tokenName: Option<string>, storedName: Option<string>): (r: string)
    ensures r != ""
    ensures r == ANONYMOUS || (Filled(bodyName) && r == bodyName.value) ||
            (Filled(tokenName) && r == tokenName.value) || (Filled(storedName) && r == storedName.value)
    ensures Filled(bodyName) ==> r == bodyName.value
    ensures !Filled(bodyName) && Filled(tokenName) ==> r == tokenName.value
    ensures !Filled(bodyName) && !Filled(tokenName) && Filled(storedName) ==> r == storedName.value
    ensures !Filled(bodyName) && !Filled(tokenName) && !Filled(storedName) ==> r == ANONYMOUS
  {
    if Filled(bodyName) then bodyName.value
    else if Filled(tokenName) then tokenName.value
    else if Filled(storedName) then storedName.value
    else ANONYMOUS
  }

  /** The caller's id and display name as `addComment` and `addReview`
      compute them: the name starts as the body's, is replaced by the
      token's while still empty, then (only for a caller with an id) by the
      stored username, then by "Аноним". Without an id no name is computed. */
  method ResolveAuthor(bodyName: Option<string>, claims: Option<Claims>, accounts: map<Id, Account>)
    returns (userId: Option<Id>, userName: Option<string>)
    ensures userId == ClaimedUserId(claims)
    ensures userId.None? ==> userName.None?
    ensures userId.Some? ==>
              userName == Some(AuthorName(bodyName, TokenName(claims), StoredName(accounts, userId.value)))
  {
    userId := None;
    userName := if Filled(bodyName) then bodyName else None;
    if claims.Some? {
      var decoded := claims.value;
      userId := ClaimedUserId(claims);
      if !Filled(userName) && (Filled(decoded.username) || (decoded.user.Some? && Filled(decoded.user.value.username))) {
        userName := if Filled(decoded.username) then decoded.username else decoded.user.value.username;
      }
    }
    if userId.None? {
      return None, None;
    }
    if !Filled(userName) {
      if userId.value in accounts && accounts[userId.value].username != "" {
        userName := Some(accounts[userId.value].username);
      }
    }
    if !Filled(userName) {
      userName := Some(ANONYMOUS);
    }
  }

  /** `jwt.verify` of a token this system signed: the payload's claims. A
      `userId` claim holding a whole record (issued for a subject with no
      id) is not an id this model can carry, so it decodes to no claims. */
  function ClaimsOf(p: Payload): (c: Option<Claims>)
    ensures c.Some? <==> p.userId.IdClaim?
    ensures c.Some? ==> c.value.userId == Some(p.userId.id) && c.value.username == p.username
    ensures c.Some? ==> c.value.user.None? && c.value.id.None?
  {
    if p.userId.IdClaim? then Some(Claims(Some(p.userId.id), None, None, p.username)) else None
  }

  /** A token issued for an account at registration or login, once decoded,
      resolves to that account's id; the author name is the body's, else the
      account's username, and only for an account with an empty username is
      the stored row (then "Аноним") consulted. */
  lemma IssuedTokenResolves(id: Id, a: Account, bodyName: Option<string>, accounts: map<Id, Account>)
    ensures var claims := ClaimsOf(GenerateToken(AccountSubject(id, a)));
            claims.Some? &&
            ClaimedUserId(claims) == Some(id) &&
            AuthorName(bodyName, TokenName(claims), StoredName(accounts, id)) ==
              (if Filled(bodyName) then bodyName.value
               else if a.username != "" then a.username
               else if StoredName(accounts, id).Some? then StoredName(accounts, id).value
               else ANONYMOUS)
  {
    AccountTokenIdentifies(id, a);
  }
}
