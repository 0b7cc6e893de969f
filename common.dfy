/** Types shared by the authorization handler and the two controllers:
    identifiers, users, optional values and the outcome of an API action. */
module ApiCommon {

  /** A value that may be absent: C#'s `T?` (a nullable reference or `Nullable<T>`). */
  datatype Option<+T> = None | Some(value: T)

  /** A `System.Guid`. Only equality and the all-zero value `Guid.Empty`
      (also written `default`) matter here, so a natural number stands for it. */
  type Guid = nat

  const EmptyGuid: Guid := 0

  /** A user as returned by the user manager's lookup by id. */
  datatype User = User(id: Guid)

  /** Exceptions the modelled code can raise. */
  datatype Exception =
    | ArgumentOutOfRange  // List<T>.GetRange with a negative count
    | InvalidCast         // a library item cast to Playlist that is not one

  /** What an action hands back to the framework: a value (200), one of the
      two status results the controllers produce, or an exception it lets escape. */
  datatype Response<+T> =
    | Ok(value: T)
    | Forbidden  // 403 "User does not have permission for this action."
    | NotFound   // 404
    | Thrown(error: Exception)

  /** `QueryResult<T>`: a page of items and the total number of records. */
  datatype QueryResult<+T> = QueryResult(items: seq<T>, totalRecordCount: int)

  /** The guard at the head of every user-scoped action: a supplied user id
      must pass the permission check, an absent one needs none. */
  predicate MayActFor(userId: Option<Guid>, canUpdateUser: Guid -> bool)
    ensures userId.None? ==> MayActFor(userId, canUpdateUser)
    ensures userId.Some? ==> (MayActFor(userId, canUpdateUser) <==> canUpdateUser(userId.value))
  {
    userId.None? || canUpdateUser(userId.value)
  }

  /** The user an action works for: looked up only when an id is supplied and
      is not `Guid.Empty`; otherwise there is none. */
  function ResolveUser(userId: Option<Guid>, getUserById: Guid -> Option<User>): (u: Option<User>)
    ensures (userId.None? || userId.value == EmptyGuid) ==> u.None?
    ensures u.Some? ==> userId.Some? && userId.value != EmptyGuid && u == getUserById(userId.value)
    ensures userId.Some? && userId.value != EmptyGuid ==> u == getUserById(userId.value)
  {
    if userId.Some? && userId.value != EmptyGuid then getUserById(userId.value) else None
  }

  /** The user is absent exactly when no usable id is given or the lookup finds nobody. */
  lemma ResolveUserNoneIff(userId: Option<Guid>, getUserById: Guid -> Option<User>)
    ensures ResolveUser(userId, getUserById).None?
        <==> userId.None? || userId.value == EmptyGuid || getUserById(userId.value).None?
  {
  }
}
