/** The ownership test of the auth feature
    (client/src/features/auth/utils/is-owner.ts). */
module IsOwner {
  import opened Common

  datatype User = User(id: string, username: string, email: string, passwordHash: string)

  /** Anything owned: `userId` may be `null`. */
  datatype Entity = Entity(userId: Option<string>)

  /** `isOwner(authUser, entity)`; `None` is `null` or `undefined`. */
  function IsOwner(authUser: Option<User>, entity: Option<Entity>): bool
  {
    if authUser.None? || entity.None? then false
    else if entity.value.userId.None? || entity.value.userId.value == "" then false
    else entity.value.userId.value == authUser.value.id
  }

  /** The entity is owned exactly when both are present, the entity names a
      non-empty owner, and that owner is the user. */
  lemma IsOwnerIff(authUser: Option<User>, entity: Option<Entity>)
    ensures IsOwner(authUser, entity) <==>
      authUser.Some? && entity.Some? && entity.value.userId.Some? && entity.value.userId.value != "" &&
      entity.value.userId.value == authUser.value.id
  {
  }

  /** Only the user's id and the entity's owner id matter. */
  lemma IsOwnerDependsOnIds(u1: User, u2: User, e1: Entity, e2: Entity)
    requires u1.id == u2.id && e1.userId == e2.userId
    ensures IsOwner(Some(u1), Some(e1)) == IsOwner(Some(u2), Some(e2))
  {
  }
}
