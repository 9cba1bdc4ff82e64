/** The authorization decisions the controllers make inline before they touch
    a table. Each is a pure predicate of the caller and, where ownership
    matters, of the row's owner. */
module Policy {
  import opened Common

  /** Roles that may delete any comment or review. */
  const PRIVILEGED_ROLES: set<string> := {WORKER, MANAGER, CREATOR, ADMIN}

  /** Roles that may plan shifts; `admin` is not among them. */
  const STAFF_ROLES: set<string> := {WORKER, MANAGER, CREATOR}

  /** Roles that may update or delete any news item. */
  const NEWS_EDITOR_ROLES: set<string> := {ADMIN, CREATOR}

  /** `req.user && req.user.role === 'creator'`: the gate on news creation,
      drinks and the admin operations. */
  predicate IsCreator(actor: Option<Actor>)
    ensures IsCreator(actor) ==> actor.Some? && RoleIn(actor, STAFF_ROLES) && RoleIn(actor, NEWS_EDITOR_ROLES) && RoleIn(actor, PRIVILEGED_ROLES)
  {
    HasRole(actor, CREATOR)
  }

  predicate RoleIn(actor: Option<Actor>, roles: set<string>) {
    actor.Some? && actor.value.role.Some? && actor.value.role.value in roles
  }

  /** The shift gate: role in {worker, manager, creator}. */
  predicate IsStaff(actor: Option<Actor>)
    ensures IsStaff(actor) ==> actor.Some? && RoleIn(actor, PRIVILEGED_ROLES)
    ensures HasRole(actor, ADMIN) || HasRole(actor, USER) || HasRole(actor, GUEST) ==> !IsStaff(actor)
  {
    RoleIn(actor, STAFF_ROLES)
  }

  /** The news update/delete gate: admin or creator, or the caller's id is
      the item's non-null author id. */
  predicate CanManageNews(actor: Option<Actor>, authorId: Option<Id>)
    ensures CanManageNews(actor, authorId) ==> actor.Some?
    ensures HasRole(actor, ADMIN) || HasRole(actor, CREATOR) ==> CanManageNews(actor, authorId)
    ensures authorId.None? ==> (CanManageNews(actor, authorId) <==> RoleIn(actor, NEWS_EDITOR_ROLES))
  {
    actor.Some? &&
    (RoleIn(actor, NEWS_EDITOR_ROLES) || (authorId.Some? && actor.value.id == authorId))
  }

  /** Owner by id: the row has an owner id and it is the caller's `id`. */
  predicate OwnsById(actor: Option<Actor>, ownerId: Option<Id>) {
    ownerId.Some? && actor.Some? && actor.value.id == ownerId
  }

  /** Owner by display name: the row's non-empty name is the caller's username. */
  predicate OwnsByName(actor: Option<Actor>, ownerName: Option<string>) {
    Filled(ownerName) && actor.Some? && actor.value.username == ownerName
  }

  /** The comment and review deletion gate: owner by id, owner by name, or a
      privileged role. */
  predicate CanModerate(actor: Option<Actor>, ownerId: Option<Id>, ownerName: Option<string>)
    ensures actor.None? ==> !CanModerate(actor, ownerId, ownerName)
    ensures RoleIn(actor, PRIVILEGED_ROLES) ==> CanModerate(actor, ownerId, ownerName)
    ensures ownerId.None? && !Filled(ownerName) ==> (CanModerate(actor, ownerId, ownerName) <==> RoleIn(actor, PRIVILEGED_ROLES))
  {
    OwnsById(actor, ownerId) || OwnsByName(actor, ownerName) || RoleIn(actor, PRIVILEGED_ROLES)
  }

  /** An anonymous caller passes no gate. */
  lemma AnonymousDenied(ownerId: Option<Id>, ownerName: Option<string>, authorId: Option<Id>)
    ensures !IsCreator(None) && !IsStaff(None)
    ensures !CanManageNews(None, authorId) && !CanModerate(None, ownerId, ownerName)
  {
  }

  /** The creator passes every gate, whoever owns the row. */
  lemma CreatorPassesEveryGate(actor: Option<Actor>, ownerId: Option<Id>, ownerName: Option<string>, authorId: Option<Id>)
    requires IsCreator(actor)
    ensures IsStaff(actor) && CanManageNews(actor, authorId) && CanModerate(actor, ownerId, ownerName)
  {
  }

  /** An admin may manage news and moderate, but may not plan shifts and is
      not the creator. */
  lemma AdminIsNotStaff(actor: Option<Actor>, ownerId: Option<Id>, ownerName: Option<string>, authorId: Option<Id>)
    requires HasRole(actor, ADMIN)
    ensures !IsStaff(actor) && !IsCreator(actor)
    ensures CanManageNews(actor, authorId) && CanModerate(actor, ownerId, ownerName)
  {
  }

  /** A caller without a privileged role may delete a comment or review
      exactly when it owns the row by id or by name. */
  lemma ModerationWithoutRole(actor: Option<Actor>, ownerId: Option<Id>, ownerName: Option<string>)
    requires !RoleIn(actor, PRIVILEGED_ROLES)
    ensures CanModerate(actor, ownerId, ownerName) <==>
              (actor.Some? && ownerId.Some? && actor.value.id == ownerId) ||
              (actor.Some? && Filled(ownerName) && actor.value.username == ownerName)
  {
  }

  /** A caller without an editor role may update or delete a news item exactly
      when it is its author; a row without author id is theirs to manage only
      through the role. */
  lemma NewsWithoutRole(actor: Option<Actor>, authorId: Option<Id>)
    requires !RoleIn(actor, NEWS_EDITOR_ROLES)
    ensures CanManageNews(actor, authorId) <==> actor.Some? && authorId.Some? && actor.value.id == authorId
    ensures authorId.None? ==> !CanManageNews(actor, authorId)
  {
  }
}
