/**
 * The Python back end's `users` table (backend/models.py) and its NFT
 * cache table, as SQLAlchemy sessions see them.
 */
module PyStore {
  import opened Wrappers

  /** `models.User`; `username` and `first_name` are nullable columns. */
  datatype PyUser = PyUser(
    id: nat,
    telegramId: int,
    walletAddress: string,
    username: Option<string>,
    firstName: Option<string>)

  /** A field of a JSON object as the provider sent it: missing, `null`, or a value. */
  datatype JsonField<+T> = Absent | Null | Present(value: T)

  /** `schemas.NftPreview`. */
  datatype NftPreview = NftPreview(url: string, resolution: string)

  /**
   * One item of the provider's `nft_items`, as stored in the `nft_data`
   * JSON column, reduced to the top-level fields `schemas.NftItem` reads;
   * the item's other fields are not represented.
   */
  datatype RawNft = RawNft(
    address: JsonField<string>,
    name: JsonField<string>,
    description: JsonField<string>,
    previews: JsonField<seq<NftPreview>>)

  /** A row of the NFT cache: the provider's items and when the row was inserted. */
  datatype CacheEntry = CacheEntry(nftData: seq<RawNft>, cachedAt: int)

  /** A FastAPI answer: the body, or an `HTTPException` with its status and detail. */
  datatype HttpResult<+T> = Ok(body: T) | HttpError(status: int, detail: string)

  /** `query(User).filter(User.telegram_id == tid).first()`. */
  function FindUser(users: seq<PyUser>, tid: int): (r: Option<nat>)
    ensures r.Some? ==> r.value < |users| && users[r.value].telegramId == tid
    ensures r.None? <==> forall j | 0 <= j < |users| :: users[j].telegramId != tid
  {
    if users == [] then None
    else if users[0].telegramId == tid then Some(0)
    else match FindUser(users[1..], tid)
      case None => None
      case Some(i) => Some(i + 1)
  }

  /** Primary keys below the next one, Telegram IDs unique (`unique=True`). */
  ghost predicate UsersValid(users: seq<PyUser>, nextId: nat) {
    && (forall i | 0 <= i < |users| :: users[i].id < nextId)
    && (forall i, j | 0 <= i < j < |users| :: users[i].telegramId != users[j].telegramId)
  }

  /** The only row carrying `tid` is the one `FindUser` finds. */
  lemma FindUserUnique(users: seq<PyUser>, tid: int, i: nat)
    requires i < |users| && users[i].telegramId == tid
    requires forall j | 0 <= j < |users| && j != i :: users[j].telegramId != tid
    ensures FindUser(users, tid) == Some(i)
  {
  }

  /** Overwriting fields other than the keys keeps the table valid, and the row findable. */
  lemma UpdateKeepsUsersValid(users: seq<PyUser>, nextId: nat, i: nat, user: PyUser)
    requires UsersValid(users, nextId) && i < |users|
    requires user.id == users[i].id && user.telegramId == users[i].telegramId
    ensures UsersValid(users[i := user], nextId)
    ensures FindUser(users[i := user], user.telegramId) == Some(i)
  {
    var users' := users[i := user];
    forall j | 0 <= j < |users'| && j != i ensures users'[j].telegramId != user.telegramId {
      assert users'[j] == users[j];
      if j < i {
        assert users[j].telegramId != users[i].telegramId;
      } else {
        assert users[i].telegramId != users[j].telegramId;
      }
    }
    FindUserUnique(users', user.telegramId, i);
  }

  /** Appending a row with a fresh Telegram ID and the next key keeps the table valid, and the row findable. */
  lemma AppendKeepsUsersValid(users: seq<PyUser>, nextId: nat, user: PyUser)
    requires UsersValid(users, nextId) && user.id == nextId
    requires FindUser(users, user.telegramId).None?
    ensures UsersValid(users + [user], nextId + 1)
    ensures FindUser(users + [user], user.telegramId) == Some(|users|)
  {
    var users' := users + [user];
    assert forall j | 0 <= j < |users| :: users'[j] == users[j];
    FindUserUnique(users', user.telegramId, |users|);
  }

  class PyDatabase {
    var users: seq<PyUser>
    var nextUserId: nat
    /** The cache table keyed by `owner_wallet_address`. */
    var nftCache: map<string, CacheEntry>

    ghost predicate Valid()
      reads this
    {
      UsersValid(users, nextUserId)
    }

    constructor ()
      ensures Valid() && users == [] && nftCache == map[]
    {
      users := [];
      nextUserId := 1;
      nftCache := map[];
    }
  }
}
