/**
 * The Go back end's tables (backend-go/models), held by GORM: users and
 * showcases in primary-key order, with the lookups the handlers issue.
 */
module GoStore {
  import opened Wrappers

  /** `models.User`; `id` is the `gorm.Model` primary key. */
  datatype GoUser = GoUser(id: nat, telegramId: int, walletAddress: string, username: string, firstName: string)

  /** `models.ShowcaseNft`: a snapshot of one NFT. */
  datatype GoShowcaseNft = GoShowcaseNft(nftAddress: string, name: string, description: string, image: string, collectionName: string)

  /** `models.Showcase` with its `ShowcaseNfts` preloaded. */
  datatype GoShowcase = GoShowcase(id: nat, userId: nat, title: string, description: string, showcaseNfts: seq<GoShowcaseNft>)

  /** A JSON answer of a handler: the body with status 200, or `{"error": …}` with a status. */
  datatype JsonReply<+T> = Success(body: T) | Failure(status: int, error: string)

  const STATUS_BAD_REQUEST: int := 400
  const STATUS_FORBIDDEN: int := 403
  const STATUS_NOT_FOUND: int := 404
  const STATUS_INTERNAL_ERROR: int := 500
  const STATUS_UNAVAILABLE: int := 503

  /** `Where("telegram_id = ?", tid).First(&user)`: the first row with that Telegram ID. */
  function IndexOfTelegramId(users: seq<GoUser>, tid: int): (r: Option<nat>)
    ensures r.Some? ==> r.value < |users| && users[r.value].telegramId == tid
    ensures r.Some? ==> forall j | 0 <= j < r.value :: users[j].telegramId != tid
    ensures r.None? <==> forall j | 0 <= j < |users| :: users[j].telegramId != tid
  {
    if users == [] then None
    else if users[0].telegramId == tid then Some(0)
    else match IndexOfTelegramId(users[1..], tid)
      case None => None
      case Some(i) => Some(i + 1)
  }

  /**
   * `Where(models.User{TelegramID: tid}).First(&user)`: GORM leaves
   * zero-valued fields of a struct condition out of the query, so for
   * Telegram ID 0 the condition is empty and `First` gives the row with the
   * smallest primary key.
   */
  function FindByStruct(users: seq<GoUser>, tid: int): (r: Option<nat>)
    ensures tid != 0 ==> r == IndexOfTelegramId(users, tid)
    ensures tid == 0 ==> (r.Some? <==> users != []) && (r.Some? ==> r.value == 0)
  {
    if tid == 0 then (if users == [] then None else Some(0))
    else IndexOfTelegramId(users, tid)
  }

  /** `First(&showcase, id)`: the showcase with that primary key. */
  function IndexOfShowcase(showcases: seq<GoShowcase>, id: nat): (r: Option<nat>)
    ensures r.Some? ==> r.value < |showcases| && showcases[r.value].id == id
    ensures r.None? <==> forall j | 0 <= j < |showcases| :: showcases[j].id != id
  {
    if showcases == [] then None
    else if showcases[0].id == id then Some(0)
    else match IndexOfShowcase(showcases[1..], id)
      case None => None
      case Some(i) => Some(i + 1)
  }

  /**
   * Primary keys are positive, ascending in table order and below the next
   * one to be assigned; `TelegramID` carries a unique index.
   */
  ghost predicate UsersValid(users: seq<GoUser>, nextId: nat) {
    && 1 <= nextId
    && (forall i | 0 <= i < |users| :: 1 <= users[i].id < nextId)
    && (forall i, j | 0 <= i < j < |users| :: users[i].id < users[j].id)
    && (forall i, j | 0 <= i < j < |users| :: users[i].telegramId != users[j].telegramId)
  }

  ghost predicate ShowcasesValid(showcases: seq<GoShowcase>, nextId: nat) {
    && 1 <= nextId
    && (forall i | 0 <= i < |showcases| :: 1 <= showcases[i].id < nextId)
    && (forall i, j | 0 <= i < j < |showcases| :: showcases[i].id < showcases[j].id)
  }

  class Database {
    var users: seq<GoUser>
    var showcases: seq<GoShowcase>
    var nextUserId: nat
    var nextShowcaseId: nat

    ghost predicate Valid()
      reads this
    {
      UsersValid(users, nextUserId) && ShowcasesValid(showcases, nextShowcaseId)
    }

    /** An empty, migrated database. */
    constructor ()
      ensures Valid() && users == [] && showcases == []
    {
      users := [];
      showcases := [];
      nextUserId := 1;
      nextShowcaseId := 1;
    }
  }
}
