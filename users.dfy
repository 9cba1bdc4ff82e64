/** The `users` and `user_reputation_votes` tables and the handlers that change
    them: registration and login, reputation votes and their status, and the
    creator's administration of roles, accounts and reputation. */
module Users {
  import opened Common
  import opened Policy
  import opened Accounts
  import opened Auth
  import opened Votes

  /** The roles `updateUserRole` accepts. */
  const ASSIGNABLE_ROLES: set<string> := {GUEST, WORKER, MANAGER, CREATOR}

  predicate AssignableRole(role: Val) {
    role.Str? && role.s in ASSIGNABLE_ROLES
  }

  /** Some account already uses the username or the email. */
  predicate Taken(accounts: map<Id, Account>, username: string, email: string) {
    exists id :: id in accounts && (accounts[id].username == username || accounts[id].email == email)
  }

  /** The role `register` asks for: creator for the bootstrap username, the
      column default otherwise. */
  function RegisteredRole(username: string): (r: Option<string>)
    ensures r.Some? <==> username == BOOTSTRAP
    ensures r.Some? ==> r.value == CREATOR
  {
    if username == BOOTSTRAP then Some(CREATOR) else None
  }

  /** The login lookup: the username matches when given, or the email does. */
  predicate LoginMatch(a: Account, username: Option<string>, email: Option<string>)
    ensures !Filled(username) && !Filled(email) ==> !LoginMatch(a, username, email)
    ensures Filled(username) && a.username == username.value ==> LoginMatch(a, username, email)
    ensures Filled(email) && a.email == email.value ==> LoginMatch(a, username, email)
  {
    (Filled(username) && a.username == username.value) || (Filled(email) && a.email == email.value)
  }

  /** `UPDATE users SET reputation = reputation + :change WHERE id = :target`. */
  function Credit(accounts: map<Id, Account>, target: Id, change: int): (r: map<Id, Account>)
    ensures r.Keys == accounts.Keys
    ensures forall u :: u in r && u != target ==> r[u] == accounts[u]
    ensures target in r ==> r[target] == accounts[target].(reputation := accounts[target].reputation + change)
  {
    if target in accounts then accounts[target := accounts[target].(reputation := accounts[target].reputation + change)]
    else accounts
  }

  /** `reputation + :change` leaves the column's range for an existing
      target, so the `UPDATE` fails. */
  predicate Overflows(accounts: map<Id, Account>, target: Id, change: int) {
    target in accounts && !FitsInteger(accounts[target].reputation + change)
  }

  /** Nobody has a vote row about themselves. */
  ghost predicate NoSelfVotes(votes: Ballots) {
    forall k :: k in votes ==> k.0 != k.1
  }

  /** The body of a successful vote. */
  datatype VoteReply = VoteReply(reputation: int, hasVoted: bool, voteType: Option<Dir>)

  class UserDirectory {
    var accounts: map<Id, Account>
    var votes: Ballots

    ghost predicate Valid()
      reads this
    {
      UniqueIdentities(accounts) && ReputationsFit(accounts) && NoSelfVotes(votes)
    }

    /** Reputation minus vote sum: the quantity every vote keeps. */
    ghost function Balance(user: Id): int
      reads this
      requires user in accounts
    {
      accounts[user].reputation - Tally(votes, user)
    }

    constructor ()
      ensures Valid() && accounts == map[] && votes == map[]
    {
      accounts := map[];
      votes := map[];
    }

    /** `register`: a missing username or email makes the duplicate lookup
        fail; a duplicate username or email is refused; a missing password
        makes hashing fail; `newId` is the UUID the database draws, and a
        colliding one fails the insert. */
    method Register(newId: Id, username: Option<string>, email: Option<string>, password: Option<string>)
      returns (status: Status, reply: Option<AuthReply>)
      requires Valid()
      modifies this
      ensures Valid() && votes == old(votes)
      ensures CreatorIsBootstrap(old(accounts)) ==> CreatorIsBootstrap(accounts)
      ensures status == ServerError <==>
                username.None? || email.None? ||
                (!Taken(old(accounts), username.value, email.value) && (password.None? || newId in old(accounts)))
      ensures status == BadRequest <==> username.Some? && email.Some? && Taken(old(accounts), username.value, email.value)
      ensures status == Created <==>
                username.Some? && email.Some? && password.Some? &&
                !Taken(old(accounts), username.value, email.value) && newId !in old(accounts)
      ensures status != Created ==> accounts == old(accounts) && reply.None?
      ensures status == Created ==>
                var a := Create(username.value, email.value, password.value, RegisteredRole(username.value));
                accounts == old(accounts)[newId := a] && reply == Some(ReplyFor(newId, a))
      ensures status == Created ==>
                (accounts[newId].role == CREATOR <==> username.value == BOOTSTRAP) &&
                (username.value != BOOTSTRAP ==> accounts[newId].role == USER) &&
                reply.value.reputation == 0
    {
      if username.None? || email.None? {
        return ServerError, None;
      }
      if exists id :: id in accounts && (accounts[id].username == username.value || accounts[id].email == email.value) {
        return BadRequest, None;
      }
      if password.None? || newId in accounts {
        return ServerError, None;
      }
      var roleToAssign := RegisteredRole(username.value);
      var a := Create(username.value, email.value, password.value, roleToAssign);
      accounts := accounts[newId := a];
      status, reply := Created, Some(ReplyFor(newId, a));
    }

    /** `login`: at least one of username and email is needed; the lookup
        returns some account matching either (`user`); a missing account or a
        wrong password is 401, a missing password makes the comparison fail. */
    method Login(username: Option<string>, email: Option<string>, password: Option<string>)
      returns (status: Status, user: Option<Id>, reply: Option<AuthReply>)
      ensures status == BadRequest <==> !Filled(username) && !Filled(email)
      ensures status == BadRequest ==> user.None?
      ensures user.Some? ==> user.value in accounts && LoginMatch(accounts[user.value], username, email)
      ensures (Filled(username) || Filled(email)) ==>
                (user.None? <==> forall id :: id in accounts ==> !LoginMatch(accounts[id], username, email))
      ensures status == Unauthorized <==>
                (Filled(username) || Filled(email)) &&
                (user.None? || (password.Some? && !ValidatePassword(accounts[user.value], password.value)))
      ensures status == ServerError <==> user.Some? && password.None?
      ensures status == Ok <==> user.Some? && password.Some? && ValidatePassword(accounts[user.value], password.value)
      ensures status == Ok ==> reply == Some(ReplyFor(user.value, accounts[user.value]))
      ensures status != Ok ==> reply.None?
    {
      var conditions := LoginConditions(username, email);
      if |conditions| == 0 {
        return BadRequest, None, None;
      }
      assert forall a :: MatchesAny(a, conditions) <==> LoginMatch(a, username, email) by {
        forall a
          ensures MatchesAny(a, conditions) <==> LoginMatch(a, username, email)
        {
          if LoginMatch(a, username, email) {
            if Filled(username) && a.username == username.value {
              assert Matches(a, conditions[0]);
            } else {
              var last := |conditions| - 1;
              assert conditions[last] in conditions;
              assert conditions[last] == ByEmail(email.value);
              assert Matches(a, conditions[last]);
            }
          }
          if MatchesAny(a, conditions) {
            var i :| 0 <= i < |conditions| && Matches(a, conditions[i]);
            assert conditions[i] in conditions;
          }
        }
      }
      if !exists id :: id in accounts && MatchesAny(accounts[id], conditions) {
        return Unauthorized, None, None;
      }
      var id :| id in accounts && MatchesAny(accounts[id], conditions);
      user := Some(id);
      if password.None? {
        return ServerError, user, None;
      }
      if !ValidatePassword(accounts[id], password.value) {
        return Unauthorized, user, None;
      }
      status, reply := Ok, Some(ReplyFor(id, accounts[id]));
    }

    /** `getReputationStatus`: whether the caller has a vote row about
        `target`, and its direction. */
    method GetReputationStatus(actor: Option<Actor>, target: Id) returns (status: Status, hasVoted: bool, voteType: Option<Dir>)
      ensures actor.None? ==> status == Unauthorized
      ensures status == Ok <==> actor.Some? && ActorKey(actor.value).Some?
      ensures actor.Some? && ActorKey(actor.value).None? ==> status == ServerError
      ensures status == Ok ==>
                (hasVoted <==> (ActorKey(actor.value).value, target) in votes) &&
                voteType == RowOf(votes, (ActorKey(actor.value).value, target))
      ensures status != Ok ==> !hasVoted && voteType.None?
    {
      if actor.None? {
        return Unauthorized, false, None;
      }
      var currentUserId := ActorKey(actor.value);
      if currentUserId.None? {
        return ServerError, false, None;
      }
      var key := (currentUserId.value, target);
      hasVoted := key in votes;
      voteType := if hasVoted then Some(votes[key]) else None;
      status := Ok;
    }

    /** The ledger half of `voteReputation`: the same direction again removes
        the row, the other direction flips it, no row inserts one; the answer
        is the reputation change each case applies. */
    method ApplyBallot(key: (Id, Id), dir: Dir) returns (reputationChange: int)
      modifies this
      ensures accounts == old(accounts)
      ensures votes == Put(old(votes), key, Transition(RowOf(old(votes), key), dir).row)
      ensures reputationChange == Transition(RowOf(old(votes), key), dir).delta
    {
      if key in votes {
        var oldVote := votes[key];
        if oldVote == dir {
          votes := votes - {key};
          reputationChange := if dir == Up then -1 else 1;
        } else {
          votes := votes[key := dir];
          reputationChange := if dir == Up then 2 else -2;
        }
      } else {
        votes := votes[key := dir];
        reputationChange := if dir == Up then 1 else -1;
      }
    }

    /** `voteReputation`: refuses a vote about oneself and an unknown
        direction, then applies the ledger transition to the (caller, target)
        row and credits its change to the target's reputation. The two
        statements are not one transaction: when the credit leaves the
        column's range it fails (500) after the vote row was written. */
    method VoteReputation(actor: Option<Actor>, target: Id, voteType: Val) returns (status: Status, reply: Option<VoteReply>)
      requires Valid()
      modifies this
      ensures Valid()
      ensures CreatorIsBootstrap(old(accounts)) ==> CreatorIsBootstrap(accounts)
      ensures status == Unauthorized <==> actor.None?
      ensures status == BadRequest <==> actor.Some? && (ActorKey(actor.value) == Some(target) || ParseDir(voteType).None?)
      ensures actor.Some? && ActorKey(actor.value).None? && ParseDir(voteType).Some? ==> status == ServerError
      ensures !(actor.Some? && ActorKey(actor.value).Some? && ActorKey(actor.value) != Some(target) && ParseDir(voteType).Some?) ==>
                status != Ok && accounts == old(accounts) && votes == old(votes) && reply.None?
      ensures actor.Some? && ActorKey(actor.value).Some? && ActorKey(actor.value) != Some(target) && ParseDir(voteType).Some? ==>
                var key := (ActorKey(actor.value).value, target);
                var step := Transition(RowOf(old(votes), key), ParseDir(voteType).value);
                votes == Put(old(votes), key, step.row) &&
                (status == Ok <==> !Overflows(old(accounts), target, step.delta)) &&
                (status == ServerError <==> Overflows(old(accounts), target, step.delta)) &&
                (status == Ok ==>
                   accounts == Credit(old(accounts), target, step.delta) &&
                   reply == Some(VoteReply(if target in accounts then accounts[target].reputation else 0, step.row.Some?, step.row))) &&
                (status == ServerError ==>
                   accounts == old(accounts) && reply.None? && Balance(target) == old(Balance(target)) - step.delta)
      ensures status == Ok ==> forall u :: u in old(accounts) ==> u in accounts && Balance(u) == old(Balance(u))
      ensures status == ServerError ==>
                forall u :: u in old(accounts) && u != target ==> u in accounts && Balance(u) == old(Balance(u))
    {
      if actor.None? {
        return Unauthorized, None;
      }
      var currentUserId := ActorKey(actor.value);
      if currentUserId == Some(target) {
        return BadRequest, None;
      }
      var dir := ParseDir(voteType);
      if dir.None? {
        return BadRequest, None;
      }
      if currentUserId.None? {
        return ServerError, None;
      }
      var key := (currentUserId.value, target);
      var reputationChange := ApplyBallot(key, dir.value);
      forall u | u in old(accounts)
        ensures Tally(votes, u) == Tally(old(votes), u) + (if u == target then reputationChange else 0)
      {
        VoteKeepsBalance(old(votes), key.0, target, dir.value, u);
      }
      if target in accounts {
        var newValue := accounts[target].reputation + reputationChange;
        if !FitsInteger(newValue) {
          return ServerError, None;
        }
        accounts := accounts[target := accounts[target].(reputation := newValue)];
      }
      var newReputation := if target in accounts then accounts[target].reputation else 0;
      var hasVoted := key in votes;
      var currentVoteType := if hasVoted then Some(votes[key]) else None;
      status, reply := Ok, Some(VoteReply(newReputation, hasVoted, currentVoteType));
    }

    /** `UPDATE users SET role = 'manager' WHERE role = 'creator' AND id != :id`,
        one row at a time. */
    method DemoteOthers(target: Id)
      modifies this
      ensures votes == old(votes)
      ensures accounts == DemoteOtherCreators(old(accounts), target)
    {
      var pending := accounts.Keys;
      while pending != {}
        invariant pending <= accounts.Keys == old(accounts).Keys
        invariant forall a :: a in accounts && a !in pending ==> accounts[a] == DemoteOtherCreators(old(accounts), target)[a]
        invariant forall a :: a in pending ==> accounts[a] == old(accounts)[a]
        invariant votes == old(votes)
        decreases pending
      {
        var a :| a in pending;
        if a != target && accounts[a].role == CREATOR {
          accounts := accounts[a := accounts[a].(role := MANAGER)];
        }
        pending := pending - {a};
      }
      assert accounts.Keys == DemoteOtherCreators(old(accounts), target).Keys;
    }

    /** `updateUserRole`: the role must be assignable (checked first), the
        caller must be the creator; creator may only go to the bootstrap
        account, and every other creator is demoted to manager first. */
    method UpdateUserRole(actor: Option<Actor>, target: Id, role: Val) returns (status: Status)
      requires Valid()
      modifies this
      ensures Valid() && votes == old(votes)
      ensures CreatorIsBootstrap(old(accounts)) ==> CreatorIsBootstrap(accounts)
      ensures !AssignableRole(role) ==> status == BadRequest
      ensures AssignableRole(role) && !IsCreator(actor) ==> status == Forbidden
      ensures status == NotFound <==> AssignableRole(role) && IsCreator(actor) && target !in old(accounts)
      ensures status == BadRequest <==>
                !AssignableRole(role) ||
                (IsCreator(actor) && role == Str(CREATOR) && target in old(accounts) && old(accounts)[target].username != BOOTSTRAP)
      ensures status == Ok <==>
                AssignableRole(role) && IsCreator(actor) && target in old(accounts) &&
                (role == Str(CREATOR) ==> old(accounts)[target].username == BOOTSTRAP)
      ensures status != Ok ==> accounts == old(accounts)
      ensures status == Ok && role == Str(CREATOR) ==>
                accounts == DemoteOtherCreators(old(accounts), target)[target := old(accounts)[target].(role := CREATOR)] &&
                SoleCreator(accounts, target) && CreatorIsBootstrap(accounts)
      ensures status == Ok && role != Str(CREATOR) ==>
                role.Str? && accounts == old(accounts)[target := old(accounts)[target].(role := role.s)]
    {
      if !AssignableRole(role) {
        return BadRequest;
      }
      if !IsCreator(actor) {
        return Forbidden;
      }
      if role == Str(CREATOR) {
        if target !in accounts {
          return NotFound;
        }
        if accounts[target].username != BOOTSTRAP {
          return BadRequest;
        }
        DemoteOthers(target);
        PromotionKeepsInvariant(old(accounts), target);
      }
      if target !in accounts {
        return NotFound;
      }
      accounts := accounts[target := accounts[target].(role := role.s)];
      status := Ok;
    }

    /** `deleteUser`: creator only; refuses when the caller's `userId` is the
        target, refuses the bootstrap account, 404 for an unknown id. */
    method DeleteUser(actor: Option<Actor>, target: Id) returns (status: Status)
      requires Valid()
      modifies this
      ensures Valid() && votes == old(votes)
      ensures CreatorIsBootstrap(old(accounts)) ==> CreatorIsBootstrap(accounts)
      ensures !IsCreator(actor) ==> status == Forbidden
      ensures status == BadRequest <==>
                IsCreator(actor) &&
                (actor.value.userId == Some(target) || (target in old(accounts) && old(accounts)[target].username == BOOTSTRAP))
      ensures status == NotFound <==> IsCreator(actor) && actor.value.userId != Some(target) && target !in old(accounts)
      ensures status == Ok <==>
                IsCreator(actor) && actor.value.userId != Some(target) &&
                target in old(accounts) && old(accounts)[target].username != BOOTSTRAP
      ensures status == Ok ==> accounts == old(accounts) - {target}
      ensures status != Ok ==> accounts == old(accounts)
      ensures forall a :: a in old(accounts) && old(accounts)[a].username == BOOTSTRAP ==> a in accounts && accounts[a] == old(accounts)[a]
    {
      if !IsCreator(actor) {
        return Forbidden;
      }
      if actor.value.userId == Some(target) {
        return BadRequest;
      }
      if target !in accounts {
        return NotFound;
      }
      if accounts[target].username == BOOTSTRAP {
        return BadRequest;
      }
      accounts := accounts - {target};
      status := Ok;
    }

    /** `updateUserReputation`: creator only; the value must be a number and
        becomes the reputation as given. A number outside the column's range
        fails the statement whether or not the row exists: the constant is
        cast to the column type when the statement is planned. */
    method UpdateUserReputation(actor: Option<Actor>, target: Id, reputation: Val) returns (status: Status)
      requires Valid()
      modifies this
      ensures Valid() && votes == old(votes)
      ensures CreatorIsBootstrap(old(accounts)) ==> CreatorIsBootstrap(accounts)
      ensures !IsCreator(actor) ==> status == Forbidden
      ensures IsCreator(actor) && !reputation.Num? ==> status == BadRequest
      ensures status == ServerError <==> IsCreator(actor) && reputation.Num? && !FitsInteger(reputation.n)
      ensures status == NotFound <==>
                IsCreator(actor) && reputation.Num? && FitsInteger(reputation.n) && target !in old(accounts)
      ensures status == Ok <==> IsCreator(actor) && reputation.Num? && FitsInteger(reputation.n) && target in old(accounts)
      ensures status == Ok ==> accounts == old(accounts)[target := old(accounts)[target].(reputation := reputation.n)]
      ensures status != Ok ==> accounts == old(accounts)
    {
      if !IsCreator(actor) {
        return Forbidden;
      }
      if !reputation.Num? {
        return BadRequest;
      }
      if !FitsInteger(reputation.n) {
        return ServerError;
      }
      if target !in accounts {
        return NotFound;
      }
      accounts := accounts[target := accounts[target].(reputation := reputation.n)];
      status := Ok;
    }
  }

  /** Two accounts register; then the bootstrap username registers and is
      creator at once, while an account reusing an email is refused. */
  method RegistrationScenario() {
    var directory := new UserDirectory();
    var s1, r1 := directory.Register(1, Some("alice"), Some("alice@example.org"), Some("secret"));
    assert s1 == Created && r1.value.role == USER && r1.value.reputation == 0;
    var s2, r2 := directory.Register(2, Some(BOOTSTRAP), Some("owner@example.org"), Some("pw"));
    assert s2 == Created && r2.value.role == CREATOR;
    assert directory.accounts[1].email == "alice@example.org";
    var s3, r3 := directory.Register(3, Some("mallory"), Some("alice@example.org"), Some("pw"));
    assert s3 == BadRequest;
  }

  /** One account votes up on another twice, which cancels the vote, and
      cannot vote about itself. */
  method VotingScenario(directory: UserDirectory)
    requires directory.Valid() && directory.votes == map[]
    requires 1 in directory.accounts && 2 in directory.accounts && directory.accounts[2].reputation == 0
    modifies directory
  {
    var alice := Some(Actor(Some(1), None, Some("alice"), Some(USER)));
    var v1, reply1 := directory.VoteReputation(alice, 2, Str("up"));
    assert v1 == Ok && reply1 == Some(VoteReply(1, true, Some(Up)));
    var v2, reply2 := directory.VoteReputation(alice, 2, Str("up"));
    assert v2 == Ok && reply2 == Some(VoteReply(0, false, None));
    var self, _ := directory.VoteReputation(alice, 1, Str("down"));
    assert self == BadRequest;
  }
}
