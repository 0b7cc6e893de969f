/** The persons endpoints: listing people through a people query built from
    the request, and fetching one person by name. */
module Persons {
  import opened ApiCommon

  /** `ItemFilter`; only `IsFavorite` changes the people query. */
  datatype ItemFilter =
    | IsFolder | IsNotFolder | IsUnplayed | IsPlayed | IsFavorite
    | IsResumable | Likes | Dislikes | IsFavoriteOrLikes

  /** The query handed to the library manager. */
  datatype InternalPeopleQuery = InternalPeopleQuery(
    personTypes: seq<string>,
    excludePersonTypes: seq<string>,
    nameContains: Option<string>,
    user: Option<User>,
    isFavorite: Option<bool>,
    appearsInItemId: Guid,
    limit: int)

  /** The query parameters of `GET /Persons` that shape the query; the ones
      that only shape the DTOs are folded into the DTO service. */
  datatype PersonsRequest = PersonsRequest(
    limit: Option<int>,
    searchTerm: Option<string>,
    filters: seq<ItemFilter>,
    isFavorite: Option<bool>,
    excludePersonTypes: seq<string>,
    personTypes: seq<string>,
    appearsInItemId: Option<Guid>,
    userId: Option<Guid>)

  /** The controller's collaborators: the permission check, the user and
      library managers, and the two DTO builders it calls. */
  datatype PersonsServices<!Person, Dto> = PersonsServices(
    canUpdateUser: Guid -> bool,
    getUserById: Guid -> Option<User>,
    getPeopleItems: InternalPeopleQuery -> seq<Person>,
    getPerson: string -> Option<Person>,
    getItemByNameDto: (Person, Option<User>) -> Dto,
    getBaseItemDto: (Person, Option<User>) -> Dto)

  /** The query's favourite flag: an explicit `isFavorite` wins whatever the
      filters say; without one, an `IsFavorite` filter asks for favourites;
      otherwise there is no favourite condition. */
  function MergeIsFavorite(isFavorite: Option<bool>, filters: seq<ItemFilter>): (r: Option<bool>)
    ensures isFavorite.Some? ==> r == isFavorite
    ensures isFavorite.None? ==> (r.Some? <==> IsFavorite in filters)
    ensures r.Some? && !r.value ==> isFavorite == Some(false)
  {
    var isFavoriteInFilters := exists i :: 0 <= i < |filters| && filters[i] == IsFavorite;
    if isFavorite.None? && isFavoriteInFilters then Some(true) else isFavorite
  }

  /** The people query for a request and its resolved user: a missing limit
      becomes 0 and a missing `appearsInItemId` becomes `Guid.Empty`. */
  function BuildPeopleQuery(req: PersonsRequest, user: Option<User>): (q: InternalPeopleQuery)
    ensures q.personTypes == req.personTypes && q.excludePersonTypes == req.excludePersonTypes
    ensures q.nameContains == req.searchTerm && q.user == user
    ensures req.isFavorite.Some? ==> q.isFavorite == req.isFavorite
    ensures req.isFavorite.None? ==> q.isFavorite == if IsFavorite in req.filters then Some(true) else None
    ensures req.limit.None? ==> q.limit == 0
    ensures req.limit.Some? ==> q.limit == req.limit.value
    ensures req.appearsInItemId.None? ==> q.appearsInItemId == EmptyGuid
    ensures req.appearsInItemId.Some? ==> q.appearsInItemId == req.appearsInItemId.value
  {
    InternalPeopleQuery(
      req.personTypes,
      req.excludePersonTypes,
      req.searchTerm,
      user,
      MergeIsFavorite(req.isFavorite, req.filters),
      if req.appearsInItemId.Some? then req.appearsInItemId.value else EmptyGuid,
      if req.limit.Some? then req.limit.value else 0)
  }

  /** `GET /Persons`: 403 when a supplied user id fails the permission check;
      otherwise one DTO per person the query finds, in the same order, built
      for the resolved user. */
  function GetPersons<Person, Dto>(req: PersonsRequest, svc: PersonsServices<Person, Dto>)
    : (r: Response<QueryResult<Dto>>)
    ensures r.Ok? || r.Forbidden?
    ensures r.Forbidden? <==> !MayActFor(req.userId, svc.canUpdateUser)
    ensures r.Ok? ==>
              var user := ResolveUser(req.userId, svc.getUserById);
              var people := svc.getPeopleItems(BuildPeopleQuery(req, user));
              && |r.value.items| == |people|
              && r.value.totalRecordCount == |people|
              && forall i :: 0 <= i < |people| ==> r.value.items[i] == svc.getItemByNameDto(people[i], user)
  {
    if req.userId.Some? && !svc.canUpdateUser(req.userId.value) then
      Forbidden
    else
      var user := if req.userId.None? || req.userId.value == EmptyGuid then None
                  else svc.getUserById(req.userId.value);
      var peopleItems := svc.getPeopleItems(BuildPeopleQuery(req, user));
      var dtos := seq(|peopleItems|, i requires 0 <= i < |peopleItems| => svc.getItemByNameDto(peopleItems[i], user));
      Ok(QueryResult(dtos, |dtos|))
  }

  /** `GET /Persons/{name}`: 403 when a supplied user id fails the permission
      check, 404 when no person has that name, otherwise the person's DTO,
      with user data only for a present, non-empty user id. */
  function GetPerson<Person, Dto>(name: string, userId: Option<Guid>, svc: PersonsServices<Person, Dto>)
    : (r: Response<Dto>)
    ensures r.Ok? || r.Forbidden? || r.NotFound?
    ensures r.Forbidden? <==> !MayActFor(userId, svc.canUpdateUser)
    ensures r.NotFound? <==> MayActFor(userId, svc.canUpdateUser) && svc.getPerson(name).None?
    ensures r.Ok? ==> r.value == svc.getBaseItemDto(svc.getPerson(name).value, ResolveUser(userId, svc.getUserById))
  {
    if userId.Some? && !svc.canUpdateUser(userId.value) then
      Forbidden
    else
      var item := svc.getPerson(name);
      if item.None? then
        NotFound
      else if userId.Some? && userId.value != EmptyGuid then
        var user := svc.getUserById(userId.value);
        Ok(svc.getBaseItemDto(item.value, user))
      else
        Ok(svc.getBaseItemDto(item.value, None))
  }

  /** The favourite filter only ever asks for favourites: it never turns an
      absent flag into `false`, and dropping it can only remove the condition. */
  lemma FilterOnlyAddsFavorites(isFavorite: Option<bool>, filters: seq<ItemFilter>, k: nat)
    requires k < |filters|
    ensures MergeIsFavorite(isFavorite, filters[..k] + filters[k + 1..]).Some?
        ==> MergeIsFavorite(isFavorite, filters) == MergeIsFavorite(isFavorite, filters[..k] + filters[k + 1..])
  {
  }

  /** Both actions attach the same user: the one `GetPerson` passes to the DTO
      service is the user `GetPersons` puts in its query. A corollary of the
      two actions' contracts, kept to state the agreement in one place. */
  lemma ActionsAgreeOnUser<Person, Dto>(name: string, req: PersonsRequest, svc: PersonsServices<Person, Dto>)
    requires GetPerson(name, req.userId, svc).Ok?
    ensures GetPersons(req, svc).Ok?
    ensures GetPerson(name, req.userId, svc)
         == Ok(svc.getBaseItemDto(svc.getPerson(name).value, BuildPeopleQuery(req, ResolveUser(req.userId, svc.getUserById)).user))
  {
  }
}
