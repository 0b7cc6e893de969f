/** The instant-mix endpoints: each checks that the caller may act for the
    supplied user, resolves that user, asks the music manager for a mix and
    hands it to `GetResult`, which counts the items and cuts the list to the
    requested limit before building the DTOs. */
module InstantMix {
  import opened ApiCommon

  /** The seven routes, by what the mix is built from. */
  datatype MixSource =
    | FromSong(id: Guid)         // Songs/{id}/InstantMix
    | FromAlbum(id: Guid)        // Albums/{id}/InstantMix
    | FromPlaylist(id: Guid)     // Playlists/{id}/InstantMix
    | FromMusicGenre(name: string) // MusicGenres/{name}/InstantMix
    | FromArtists(id: Guid)      // Artists/{id}/InstantMix
    | FromMusicGenres(id: Guid)  // MusicGenres/{id}/InstantMix
    | FromItem(id: Guid)         // Items/{id}/InstantMix

  /** The controller's collaborators: the permission check, the user, library
      and music managers, and the DTO service. */
  datatype MixServices<!Item, Dto> = MixServices(
    canUpdateUser: Guid -> bool,
    getUserById: Guid -> Option<User>,
    getItemById: Guid -> Option<Item>,
    isPlaylist: Item -> bool,
    mixFromItem: (Option<Item>, Option<User>) -> seq<Item>,
    mixFromGenres: (seq<string>, Option<User>) -> seq<Item>,
    getDtos: (seq<Item>, Option<User>) -> seq<Dto>)

  /** The limit as `GetResult` applies it: the list is cut to its first `limit`
      items only when `limit` is below the item count; a negative limit passes
      that test and makes `GetRange` throw. */
  function ApplyLimit<T>(list: seq<T>, limit: Option<int>): (r: Response<seq<T>>)
    ensures r.Ok? || r == Thrown(ArgumentOutOfRange)
    ensures r.Thrown? <==> limit.Some? && limit.value < 0
    ensures r.Ok? ==> r.value <= list
    ensures r.Ok? ==> |r.value| == if limit.Some? && limit.value < |list| then limit.value else |list|
    ensures r.Ok? && (limit.None? || limit.value >= |list|) ==> r.value == list
  {
    if limit.Some? && limit.value < |list| then
      if limit.value < 0 then Thrown(ArgumentOutOfRange) else Ok(list[..limit.value])
    else
      Ok(list)
  }

  /** Applying the same limit twice changes nothing more. */
  lemma ApplyLimitIdempotent<T>(list: seq<T>, limit: Option<int>)
    requires ApplyLimit(list, limit).Ok?
    ensures ApplyLimit(ApplyLimit(list, limit).value, limit) == ApplyLimit(list, limit)
  {
  }

  /** Two limits in a row keep as much as the smaller one alone. */
  lemma ApplyLimitCompose<T>(list: seq<T>, a: nat, b: nat)
    ensures ApplyLimit(ApplyLimit(list, Some(a)).value, Some(b))
         == ApplyLimit(list, Some(if a < b then a else b))
  {
    var first := ApplyLimit(list, Some(a)).value;
    if b < |first| {
      assert first[..b] == list[..b];
    }
  }

  /** `GetResult`: the total is the item count before truncation, and the DTOs
      are built, for `user`, from the truncated list. */
  method GetResult<Item, Dto>(items: seq<Item>, user: Option<User>, limit: Option<int>,
                              getDtos: (seq<Item>, Option<User>) -> seq<Dto>)
    returns (r: Response<QueryResult<Dto>>)
    ensures r.Ok? || r == Thrown(ArgumentOutOfRange)
    ensures r.Ok? <==> ApplyLimit(items, limit).Ok?
    ensures r.Ok? ==> r.value.totalRecordCount == |items|
    ensures r.Ok? ==> r.value.items == getDtos(ApplyLimit(items, limit).value, user)
  {
    var list := items;
    var result := QueryResult([], |list|);
    if limit.Some? && limit.value < |list| {
      if limit.value < 0 {
        return Thrown(ArgumentOutOfRange);
      }
      list := list[..limit.value];
    }
    var returnList := getDtos(list, user);
    result := result.(items := returnList);
    return Ok(result);
  }

  /** The playlist route casts the library item to a playlist; a non-null item
      of another kind makes the cast throw. */
  predicate PlaylistCastFails<Item, Dto>(source: MixSource, svc: MixServices<Item, Dto>)
    ensures PlaylistCastFails(source, svc) ==> source.FromPlaylist? && svc.getItemById(source.id).Some?
    ensures source.FromPlaylist? && svc.getItemById(source.id).None? ==> !PlaylistCastFails(source, svc)
  {
    source.FromPlaylist? && svc.getItemById(source.id).Some? && !svc.isPlaylist(svc.getItemById(source.id).value)
  }

  /** The items the music manager mixes for a route and a user. */
  function MixItems<Item, Dto>(source: MixSource, user: Option<User>, svc: MixServices<Item, Dto>): (r: seq<Item>)
    ensures source.FromMusicGenre? ==> r == svc.mixFromGenres([source.name], user)
    ensures !source.FromMusicGenre? ==> r == svc.mixFromItem(svc.getItemById(source.id), user)
  {
    match source
    case FromMusicGenre(name) => svc.mixFromGenres([name], user)
    case _ => svc.mixFromItem(svc.getItemById(source.id), user)
  }

  /** One instant-mix action. A failed permission check answers 403 before the
      library is touched; otherwise the mix is built for the resolved user and
      paged by `GetResult`. */
  method GetInstantMix<Item, Dto>(source: MixSource, userId: Option<Guid>, limit: Option<int>,
                                  svc: MixServices<Item, Dto>)
    returns (r: Response<QueryResult<Dto>>)
    ensures !MayActFor(userId, svc.canUpdateUser) ==> r == Forbidden
    ensures MayActFor(userId, svc.canUpdateUser) && PlaylistCastFails(source, svc) ==> r == Thrown(InvalidCast)
    ensures (MayActFor(userId, svc.canUpdateUser) && !PlaylistCastFails(source, svc)
             && limit.Some? && limit.value < 0) ==> r == Thrown(ArgumentOutOfRange)
    ensures r.Ok? <==> MayActFor(userId, svc.canUpdateUser) && !PlaylistCastFails(source, svc)
                       && (limit.None? || limit.value >= 0)
    ensures r.Ok? ==>
              var user := ResolveUser(userId, svc.getUserById);
              var mix := MixItems(source, user, svc);
              r.value.totalRecordCount == |mix|
              && r.value.items == svc.getDtos(ApplyLimit(mix, limit).value, user)
  {
    if userId.Some? {
      if !svc.canUpdateUser(userId.value) {
        return Forbidden;
      }
    }

    var item: Option<Item> := None;
    if !source.FromMusicGenre? {
      item := svc.getItemById(source.id);
      if source.FromPlaylist? && item.Some? && !svc.isPlaylist(item.value) {
        return Thrown(InvalidCast);
      }
    }
    var user := if userId.Some? && userId.value != EmptyGuid then svc.getUserById(userId.value) else None;
    var items;
    if source.FromMusicGenre? {
      items := svc.mixFromGenres([source.name], user);
    } else {
      items := svc.mixFromItem(item, user);
    }
    r := GetResult(items, user, limit, svc.getDtos);
  }
}
