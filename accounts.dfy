/** The `users` table's record (the User model): its defaults, the password
    hashed before the row is created, password validation, the uniqueness of
    usernames and emails, and the rule that reserves the creator role to the
    bootstrap username. */
module Accounts {
  import opened Common

  /** The one username allowed to hold the creator role. */
  const BOOTSTRAP := "denisunderonov"

  /** Default of the `role` column. */
  const DEFAULT_ROLE := USER

  /** Default of the `reputation` column. */
  const DEFAULT_REPUTATION := 0

  /** A password hash. bcrypt is modelled as an ideal one-way digest: two
      passwords have the same digest only when they are equal. */
  datatype Digest = Digest(secret: string)

  function Hash(password: string): Digest {
    Digest(password)
  }

  /** The range of a PostgreSQL `integer`, the type of the `reputation`
      column: a value outside it makes the statement fail. */
  const INT_MIN: int := -0x8000_0000
  const INT_MAX: int := 0x7fff_ffff

  predicate FitsInteger(n: int) {
    INT_MIN <= n <= INT_MAX
  }

  datatype Account = Account(
    username: string,
    email: string,
    password: Digest,
    role: string,
    avatar: Option<string>,
    reputation: int)

  /** `User.create`: the `beforeCreate` hook replaces the password with its
      hash; an unset role falls back to the column default. */
  function Create(username: string, email: string, password: string, role: Option<string>): (a: Account)
    ensures a.username == username && a.email == email && a.avatar == None
    ensures a.password == Hash(password)
    ensures a.role == (if role.Some? then role.value else DEFAULT_ROLE)
    ensures a.reputation == DEFAULT_REPUTATION
  {
    Account(username, email, Hash(password), if role.Some? then role.value else DEFAULT_ROLE, None, DEFAULT_REPUTATION)
  }

  /** `user.validatePassword(candidate)`. */
  predicate ValidatePassword(a: Account, candidate: string)
    ensures forall p :: a.password == Hash(p) ==> (ValidatePassword(a, candidate) <==> candidate == p)
  {
    Hash(candidate) == a.password
  }

  /** A created account accepts exactly the password it was created with. */
  lemma ValidatePasswordIff(username: string, email: string, password: string, role: Option<string>, candidate: string)
    ensures ValidatePassword(Create(username, email, password, role), candidate) <==> candidate == password
  {
  }

  /** The `unique` constraints on `username` and `email`. */
  ghost predicate UniqueIdentities(accounts: map<Id, Account>) {
    forall a, b :: a in accounts && b in accounts && a != b ==>
      accounts[a].username != accounts[b].username && accounts[a].email != accounts[b].email
  }

  /** Every stored reputation is a value of the column's type. */
  ghost predicate ReputationsFit(accounts: map<Id, Account>) {
    forall a :: a in accounts ==> FitsInteger(accounts[a].reputation)
  }

  /** Only the bootstrap username holds the creator role. */
  ghost predicate CreatorIsBootstrap(accounts: map<Id, Account>) {
    forall a :: a in accounts && accounts[a].role == CREATOR ==> accounts[a].username == BOOTSTRAP
  }

  /** The invariant the role rule keeps. */
  ghost predicate RoleInvariant(accounts: map<Id, Account>) {
    UniqueIdentities(accounts) && CreatorIsBootstrap(accounts)
  }

  /** `id` is the only creator. */
  ghost predicate SoleCreator(accounts: map<Id, Account>, id: Id) {
    id in accounts && accounts[id].role == CREATOR &&
    forall a :: a in accounts && accounts[a].role == CREATOR ==> a == id
  }

  /** Under the invariant there is at most one creator, and it has the
      bootstrap username. */
  lemma AtMostOneCreator(accounts: map<Id, Account>, a: Id, b: Id)
    requires RoleInvariant(accounts)
    requires a in accounts && accounts[a].role == CREATOR
    requires b in accounts && accounts[b].role == CREATOR
    ensures a == b && accounts[a].username == BOOTSTRAP
  {
  }

  /** `UPDATE users SET role = 'manager' WHERE role = 'creator' AND id != :keep`. */
  function DemoteOtherCreators(accounts: map<Id, Account>, keep: Id): (r: map<Id, Account>)
    ensures r.Keys == accounts.Keys
    ensures forall a :: a in r && a != keep ==> r[a].role != CREATOR
    ensures forall a :: a in r && (a == keep || accounts[a].role != CREATOR) ==> r[a] == accounts[a]
    ensures forall a :: a in r && a != keep && accounts[a].role == CREATOR ==> r[a] == accounts[a].(role := MANAGER)
  {
    map a | a in accounts ::
      if a != keep && accounts[a].role == CREATOR then accounts[a].(role := MANAGER) else accounts[a]
  }

  /** Making the bootstrap account creator after demoting every other creator
      leaves it the only creator and keeps the invariant. */
  lemma PromotionKeepsInvariant(accounts: map<Id, Account>, target: Id)
    requires UniqueIdentities(accounts)
    requires target in accounts && accounts[target].username == BOOTSTRAP
    ensures var after := DemoteOtherCreators(accounts, target)[target := accounts[target].(role := CREATOR)];
            SoleCreator(after, target) && RoleInvariant(after)
  {
    var demoted := DemoteOtherCreators(accounts, target);
    var after := demoted[target := accounts[target].(role := CREATOR)];
    forall a | a in after
      ensures after[a].username == accounts[a].username && after[a].email == accounts[a].email
      ensures after[a].role == CREATOR ==> a == target
    {
      if a != target {
        assert after[a] == demoted[a];
      }
    }
  }
}
