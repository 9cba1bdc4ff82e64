/** The pure parts of registration and login: the token payload, the login
    lookup conditions and the response body. Signing and verifying the token
    (and its 30-day expiry) are not part of this model; a token is its payload. */
module Auth {
  import opened Common
  import opened Accounts

  /** What `generateToken` is called with: a user record, or a bare id. */
  datatype Subject =
    | Record(id: Option<Id>, userId: Option<Id>, username: Option<string>, role: Option<string>)
    | BareId(value: Id)

  /** The `userId` claim: an id, or, for a record carrying neither `id` nor
      `userId`, the record itself. */
  datatype UserIdClaim = IdClaim(id: Id) | SubjectClaim(subject: Subject)

  datatype Payload = Payload(userId: UserIdClaim, username: Option<string>, role: Option<string>)

  /** `generateToken(user)`: `userId` is `user.id || user.userId || user`;
      `username` and `role` are present only when truthy. */
  function GenerateToken(user: Subject): (p: Payload)
    ensures user.BareId? ==> p == Payload(IdClaim(user.value), None, None)
    ensures user.Record? && user.id.Some? ==> p.userId == IdClaim(user.id.value)
    ensures user.Record? && user.id.None? && user.userId.Some? ==> p.userId == IdClaim(user.userId.value)
    ensures user.Record? && user.id.None? && user.userId.None? ==> p.userId == SubjectClaim(user)
    ensures user.Record? ==> (p.username.Some? <==> Filled(user.username)) && (p.username.Some? ==> p.username == user.username)
    ensures user.Record? ==> (p.role.Some? <==> Filled(user.role)) && (p.role.Some? ==> p.role == user.role)
  {
    match user
    case BareId(v) => Payload(IdClaim(v), None, None)
    case Record(id, userId, username, role) =>
      var claim := if id.Some? then IdClaim(id.value) else if userId.Some? then IdClaim(userId.value) else SubjectClaim(user);
      Payload(claim, if Filled(username) then username else None, if Filled(role) then role else None)
  }

  /** The record `register` and `login` pass to `generateToken`. */
  function AccountSubject(id: Id, a: Account): Subject {
    Record(Some(id), None, Some(a.username), Some(a.role))
  }

  /** A token issued for a stored account names that account's id, and
      carries its username and role whenever they are non-empty. */
  lemma AccountTokenIdentifies(id: Id, a: Account)
    ensures GenerateToken(AccountSubject(id, a)).userId == IdClaim(id)
    ensures a.username != "" ==> GenerateToken(AccountSubject(id, a)).username == Some(a.username)
    ensures a.role != "" ==> GenerateToken(AccountSubject(id, a)).role == Some(a.role)
  {
  }

  /** One alternative of the login lookup `WHERE username = ... OR email = ...`. */
  datatype Condition = ByUsername(username: string) | ByEmail(email: string)

  predicate Matches(a: Account, c: Condition) {
    match c
    case ByUsername(u) => a.username == u
    case ByEmail(e) => a.email == e
  }

  predicate MatchesAny(a: Account, conditions: seq<Condition>) {
    exists i :: 0 <= i < |conditions| && Matches(a, conditions[i])
  }

  /** `login` collects a condition per truthy field, username first. */
  method LoginConditions(username: Option<string>, email: Option<string>) returns (conditions: seq<Condition>)
    ensures forall c :: c in conditions <==>
              (Filled(username) && c == ByUsername(username.value)) || (Filled(email) && c == ByEmail(email.value))
    ensures |conditions| == (if Filled(username) then 1 else 0) + (if Filled(email) then 1 else 0)
    ensures Filled(username) ==> conditions[0] == ByUsername(username.value)
    ensures Filled(email) ==> conditions[|conditions| - 1] == ByEmail(email.value)
  {
    conditions := [];
    if Filled(username) {
      conditions := conditions + [ByUsername(username.value)];
    }
    if Filled(email) {
      conditions := conditions + [ByEmail(email.value)];
    }
  }

  /** The body `register` and `login` answer with. */
  datatype AuthReply = AuthReply(
    token: Payload,
    id: Id,
    username: string,
    email: string,
    role: string,
    avatar: Option<string>,
    reputation: int)

  /** The reply for a stored account. `user.reputation || 0` is the
      reputation itself: the column is never null, and a zero gives zero. */
  function ReplyFor(id: Id, a: Account): (r: AuthReply)
    ensures r.token == GenerateToken(AccountSubject(id, a)) && r.id == id
    ensures r.username == a.username && r.email == a.email && r.role == a.role
    ensures r.avatar == a.avatar && r.reputation == a.reputation
  {
    AuthReply(GenerateToken(AccountSubject(id, a)), id, a.username, a.email, a.role, a.avatar, a.reputation)
  }
}
