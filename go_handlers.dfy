/**
 * backend-go/api/handlers.go: `ConnectWallet` (body binding, bot token,
 * `initData` check, identity check, user upsert) and `GetNfts` (per-wallet
 * cache in front of TonAPI, and the `NftItem` to `SimpleNft` transform).
 */
module GoHandlers {
  import opened Wrappers
  import opened Telegram
  import opened GoStore

  // ---------------------------------------------------------------------
  // ConnectWallet

  /**
   * `WalletConnectRequest` without its `init_data`: the handler only uses
   * that string through `url.ParseQuery`, whose outcome is an input here.
   */
  datatype WalletConnectRequest = WalletConnectRequest(
    telegramId: int, walletAddress: string, username: string, firstName: string)

  const INVALID_BODY: string := "Invalid request body"
  const TOKEN_MISSING: string := "TELEGRAM_BOT_TOKEN is not configured"
  const PARSE_FAILED_PREFIX: string := "failed to parse initData: "
  const MISSING_HASH: string := "initData is missing hash"
  const VALIDATION_FAILED: string := "Invalid initData: validation failed"
  const ID_MISMATCH: string := "Telegram ID mismatch"

  /** The message of the error `ValidateInitData` returns (the wrapped parse error's text is left out). */
  function ValidationMessage(e: ValidationError): string {
    match e
    case ParseFailed => PARSE_FAILED_PREFIX
    case MissingHash => MISSING_HASH
  }

  const USER_KEY: Bytes := Ascii("user")

  /**
   * The signed `user` field names the Telegram ID in the body.
   * `userIdOf` stands for `json.Unmarshal` into `{ID int64}`: None when it
   * fails, the `id` field (0 when absent) otherwise.
   */
  predicate IdentityConfirmed(q: Query, telegramId: int, userIdOf: Bytes -> Option<int>) {
    userIdOf(Get(q, USER_KEY)) == Some(telegramId)
  }

  /** The user table after a connect: the three fields overwritten, or a new row. */
  function Upsert(users: seq<GoUser>, nextId: nat, req: WalletConnectRequest): seq<GoUser> {
    match FindByStruct(users, req.telegramId)
    case Some(i) =>
      users[i := users[i].(walletAddress := req.walletAddress, username := req.username, firstName := req.firstName)]
    case None =>
      users + [GoUser(nextId, req.telegramId, req.walletAddress, req.username, req.firstName)]
  }

  /** The next primary key after a connect: advanced only when a row was created. */
  function NextIdAfterUpsert(users: seq<GoUser>, nextId: nat, req: WalletConnectRequest): nat {
    if FindByStruct(users, req.telegramId).None? then nextId + 1 else nextId
  }

  /** The upsert keeps the table's keys ascending and its Telegram IDs unique. */
  lemma UpsertKeepsUsersValid(users: seq<GoUser>, nextId: nat, req: WalletConnectRequest)
    requires UsersValid(users, nextId)
    ensures UsersValid(Upsert(users, nextId, req), NextIdAfterUpsert(users, nextId, req))
  {
    var r := Upsert(users, nextId, req);
    if FindByStruct(users, req.telegramId).None? {
      assert forall i | 0 <= i < |users| :: r[i] == users[i];
      assert req.telegramId != 0 ==> forall i | 0 <= i < |users| :: users[i].telegramId != req.telegramId;
    }
  }

  /**
   * For a non-zero Telegram ID the upsert leaves a row with that ID holding
   * the request's fields, found by the next lookup, and every row with
   * another Telegram ID as it was.
   */
  lemma UpsertStoresRequest(users: seq<GoUser>, nextId: nat, req: WalletConnectRequest) returns (k: nat)
    requires req.telegramId != 0 && UsersValid(users, nextId)
    ensures var r := Upsert(users, nextId, req);
      && k < |r| && IndexOfTelegramId(r, req.telegramId) == Some(k)
      && r[k].walletAddress == req.walletAddress && r[k].username == req.username && r[k].firstName == req.firstName
      && (forall j | 0 <= j < |users| && users[j].telegramId != req.telegramId :: r[j] == users[j])
  {
    var r := Upsert(users, nextId, req);
    UpsertKeepsUsersValid(users, nextId, req);
    var found := IndexOfTelegramId(users, req.telegramId);
    k := if found.None? then |users| else found.value;
    assert r[k].telegramId == req.telegramId;
    var again := IndexOfTelegramId(r, req.telegramId);
    assert again.Some?;
  }

  /** An unknown Telegram ID creates a row with all four fields and the next primary key. */
  lemma UpsertCreatesUser(users: seq<GoUser>, nextId: nat, req: WalletConnectRequest)
    requires req.telegramId != 0
    requires forall j | 0 <= j < |users| :: users[j].telegramId != req.telegramId
    ensures Upsert(users, nextId, req)
      == users + [GoUser(nextId, req.telegramId, req.walletAddress, req.username, req.firstName)]
  {
  }

  /**
   * With Telegram ID 0 (a body without `telegram_id` and a signed `user`
   * without `id`), the struct condition is empty and the first user row is
   * overwritten, keeping its own Telegram ID.
   */
  lemma ZeroTelegramIdOverwritesFirstUser(users: seq<GoUser>, nextId: nat, req: WalletConnectRequest)
    requires req.telegramId == 0 && users != []
    ensures var r := Upsert(users, nextId, req);
      |r| == |users| && r[0].telegramId == users[0].telegramId && r[0].walletAddress == req.walletAddress
  {
  }

  /** The `First`, then `Create` or field updates and `Save`, of a connect. */
  method SaveUser(db: Database, req: WalletConnectRequest)
    requires db.Valid()
    modifies db
    ensures db.Valid()
    ensures db.users == Upsert(old(db.users), old(db.nextUserId), req)
    ensures db.nextUserId == NextIdAfterUpsert(old(db.users), old(db.nextUserId), req)
    ensures db.showcases == old(db.showcases) && db.nextShowcaseId == old(db.nextShowcaseId)
  {
    UpsertKeepsUsersValid(db.users, db.nextUserId, req);
    var found := FindByStruct(db.users, req.telegramId);
    if found.None? {
      db.users := db.users + [GoUser(db.nextUserId, req.telegramId, req.walletAddress, req.username, req.firstName)];
      db.nextUserId := db.nextUserId + 1;
    } else {
      var i := found.value;
      db.users := db.users[i := db.users[i].(walletAddress := req.walletAddress, username := req.username, firstName := req.firstName)];
    }
  }

  /** Every check `ConnectWallet` makes before it writes. */
  ghost predicate ConnectAccepted(body: Option<WalletConnectRequest>, botToken: Bytes, parsed: Option<Query>,
                                  order: seq<Bytes>, hmac: (Bytes, Bytes) -> Bytes, userIdOf: Bytes -> Option<int>)
    requires parsed.Some? ==> ParsedShape(parsed.value) && forall k | k in order :: k in parsed.value
  {
    && body.Some? && botToken != []
    && VerdictOf(parsed, order, botToken, hmac) == Checked(true)
    && IdentityConfirmed(parsed.value, body.value.telegramId, userIdOf)
  }

  /**
   * The checks `ConnectWallet` makes before it touches the database, in
   * source order: the rejection it replies with, or None when every check
   * passes. `body` is the outcome of `ShouldBindJSON` (None on a malformed
   * body), `botToken` the environment variable, `parsed` and `order` the
   * outcome of `url.ParseQuery` on `init_data` and the order in which Go's
   * `range` visits its keys, `hmac` HMAC-SHA-256, `userIdOf` the
   * `json.Unmarshal` of the `user` field.
   */
  method CheckConnect(body: Option<WalletConnectRequest>, botToken: Bytes,
                      parsed: Option<Query>, order: seq<Bytes>,
                      hmac: (Bytes, Bytes) -> Bytes, userIdOf: Bytes -> Option<int>)
    returns (rejection: Option<JsonReply<()>>)
    requires parsed.Some? ==> ParsedShape(parsed.value) && Enumerates(order, parsed.value)
    ensures rejection.Some? ==> rejection.value.Failure?
    ensures body.None? ==> rejection == Some(Failure(STATUS_BAD_REQUEST, INVALID_BODY))
    ensures body.Some? && botToken == [] ==> rejection == Some(Failure(STATUS_INTERNAL_ERROR, TOKEN_MISSING))
    ensures body.Some? && botToken != [] && VerdictOf(parsed, order, botToken, hmac).Rejected? ==>
      rejection == Some(Failure(STATUS_BAD_REQUEST, ValidationMessage(VerdictOf(parsed, order, botToken, hmac).error)))
    ensures body.Some? && botToken != [] && VerdictOf(parsed, order, botToken, hmac) == Checked(false) ==>
      rejection == Some(Failure(STATUS_FORBIDDEN, VALIDATION_FAILED))
    ensures body.Some? && botToken != [] && VerdictOf(parsed, order, botToken, hmac) == Checked(true)
            && !IdentityConfirmed(parsed.value, body.value.telegramId, userIdOf) ==>
      rejection == Some(Failure(STATUS_FORBIDDEN, ID_MISMATCH))
    ensures rejection.None? <==> ConnectAccepted(body, botToken, parsed, order, hmac, userIdOf)
  {
    if body.None? {
      return Some(Failure(STATUS_BAD_REQUEST, INVALID_BODY));
    }
    var req := body.value;
    if botToken == [] {
      return Some(Failure(STATUS_INTERNAL_ERROR, TOKEN_MISSING));
    }
    var isValid, err := ValidateInitData(parsed, order, botToken, hmac);
    if err.Some? {
      return Some(Failure(STATUS_BAD_REQUEST, ValidationMessage(err.value)));
    }
    if !isValid {
      return Some(Failure(STATUS_FORBIDDEN, VALIDATION_FAILED));
    }
    var userId := userIdOf(Get(parsed.value, USER_KEY));
    if userId.None? || userId.value != req.telegramId {
      return Some(Failure(STATUS_FORBIDDEN, ID_MISMATCH));
    }
    return None;
  }

  /**
   * `ConnectWallet`: the checks of `CheckConnect`, then the find-or-create
   * of the user row.
   */
  method ConnectWallet(db: Database, body: Option<WalletConnectRequest>, botToken: Bytes,
                       parsed: Option<Query>, order: seq<Bytes>,
                       hmac: (Bytes, Bytes) -> Bytes, userIdOf: Bytes -> Option<int>)
    returns (reply: JsonReply<()>)
    requires db.Valid()
    requires parsed.Some? ==> ParsedShape(parsed.value) && Enumerates(order, parsed.value)
    modifies db
    ensures db.Valid()
    ensures body.None? ==> reply == Failure(STATUS_BAD_REQUEST, INVALID_BODY)
    ensures body.Some? && botToken == [] ==> reply == Failure(STATUS_INTERNAL_ERROR, TOKEN_MISSING)
    ensures body.Some? && botToken != [] && VerdictOf(parsed, order, botToken, hmac).Rejected? ==>
      reply == Failure(STATUS_BAD_REQUEST, ValidationMessage(VerdictOf(parsed, order, botToken, hmac).error))
    ensures body.Some? && botToken != [] && VerdictOf(parsed, order, botToken, hmac) == Checked(false) ==>
      reply == Failure(STATUS_FORBIDDEN, VALIDATION_FAILED)
    ensures body.Some? && botToken != [] && VerdictOf(parsed, order, botToken, hmac) == Checked(true)
            && !IdentityConfirmed(parsed.value, body.value.telegramId, userIdOf) ==>
      reply == Failure(STATUS_FORBIDDEN, ID_MISMATCH)
    ensures reply.Success? <==> ConnectAccepted(body, botToken, parsed, order, hmac, userIdOf)
    ensures reply.Failure? ==> unchanged(db)
    ensures reply.Success? ==>
      && db.users == Upsert(old(db.users), old(db.nextUserId), body.value)
      && db.showcases == old(db.showcases)
  {
    var rejection := CheckConnect(body, botToken, parsed, order, hmac, userIdOf);
    if rejection.Some? {
      return rejection.value;
    }
    SaveUser(db, body.value);
    return Success(());
  }

  // ---------------------------------------------------------------------
  // GetNfts

  datatype Preview = Preview(resolution: string, url: string)

  /** One entry of TonAPI's `nft_items`; absent JSON fields decode as "". */
  datatype NftItem = NftItem(
    address: string,
    collectionName: string,
    metadataName: string,
    metadataDescription: string,
    metadataImage: string,
    previews: seq<Preview>)

  datatype SimpleNft = SimpleNft(address: string, name: string, description: string, image: string, collectionName: string)

  /** Reading and decoding a 200 body: unreadable, not the expected JSON, or `nft_items` (empty when absent). */
  datatype TonApiBody = BodyUnreadable | BodyMalformed | BodyItems(items: seq<NftItem>)

  /** What the TonAPI request gives: no connection, or a status and a body. */
  datatype TonApiReply = TonApiUnreachable | TonApiAnswered(status: int, body: TonApiBody)

  const TONAPI_UNREACHABLE: string := "Failed to contact TonAPI"
  const TONAPI_NON_200: string := "TonAPI returned non-200 status"
  const TONAPI_READ_FAILED: string := "Failed to read TonAPI response"
  const TONAPI_PARSE_FAILED: string := "Failed to parse TonAPI response"
  const STATUS_OK: int := 200

  /** One item of the transform: fields copied, the last preview standing in for a missing image. */
  function ToSimpleNft(item: NftItem): SimpleNft {
    var image :=
      if item.metadataImage == "" && |item.previews| > 0 then item.previews[|item.previews| - 1].url
      else item.metadataImage;
    SimpleNft(item.address, item.metadataName, item.metadataDescription, image, item.collectionName)
  }

  /**
   * An empty metadata image falls back to the last preview's URL; the
   * transformed NFT has no image exactly when the item has none and there
   * is no preview to fall back on (or the last one has an empty URL); a
   * non-empty metadata image is never replaced; the other fields are copied.
   */
  lemma ImageFallback(item: NftItem)
    ensures var n := ToSimpleNft(item);
      && (n.image == "" <==> item.metadataImage == "" && (item.previews == [] || item.previews[|item.previews| - 1].url == ""))
      && (item.metadataImage != "" ==> n.image == item.metadataImage)
      && (item.metadataImage == "" && item.previews != [] ==> n.image == item.previews[|item.previews| - 1].url)
      && (item.metadataImage == "" && item.previews == [] ==> n.image == "")
      && n.address == item.address && n.collectionName == item.collectionName
      && n.name == item.metadataName && n.description == item.metadataDescription
  {
  }

  /** The loop that fills `simpleNfts`: one entry per item, in order. */
  method TransformItems(items: seq<NftItem>) returns (simpleNfts: seq<SimpleNft>)
    ensures |simpleNfts| == |items|
    ensures forall i | 0 <= i < |items| :: simpleNfts[i] == ToSimpleNft(items[i])
  {
    simpleNfts := [];
    for i := 0 to |items|
      invariant |simpleNfts| == i
      invariant forall j | 0 <= j < i :: simpleNfts[j] == ToSimpleNft(items[j])
    {
      var item := items[i];
      var nft := SimpleNft(item.address, item.metadataName, item.metadataDescription, item.metadataImage, item.collectionName);
      if nft.image == "" && |item.previews| > 0 {
        nft := nft.(image := item.previews[|item.previews| - 1].url);
      }
      simpleNfts := simpleNfts + [nft];
    }
  }

  /** The `go-cache` instance: transformed lists keyed by wallet address (expiry is left out). */
  class NftCache {
    var entries: map<string, seq<SimpleNft>>

    constructor ()
      ensures entries == map[]
    {
      entries := map[];
    }
  }

  /**
   * `GetNfts`. `tonApi` is what the TonAPI request would give; it is only
   * consulted, and `contacted` only set, on a cache miss.
   */
  method GetNfts(cache: NftCache, walletAddress: string, tonApi: TonApiReply)
    returns (reply: JsonReply<seq<SimpleNft>>, contacted: bool)
    modifies cache
    ensures contacted <==> walletAddress !in old(cache.entries)
    ensures !contacted ==> reply == Success(old(cache.entries)[walletAddress]) && cache.entries == old(cache.entries)
    ensures contacted && tonApi.TonApiUnreachable? ==> reply == Failure(STATUS_UNAVAILABLE, TONAPI_UNREACHABLE)
    ensures contacted && tonApi.TonApiAnswered? && tonApi.status != STATUS_OK ==>
      reply == Failure(tonApi.status, TONAPI_NON_200)
    ensures contacted && tonApi == TonApiAnswered(STATUS_OK, BodyUnreadable) ==>
      reply == Failure(STATUS_INTERNAL_ERROR, TONAPI_READ_FAILED)
    ensures contacted && tonApi == TonApiAnswered(STATUS_OK, BodyMalformed) ==>
      reply == Failure(STATUS_INTERNAL_ERROR, TONAPI_PARSE_FAILED)
    ensures contacted && tonApi.TonApiAnswered? && tonApi.status == STATUS_OK && tonApi.body.BodyItems? ==>
      && reply.Success? && |reply.body| == |tonApi.body.items|
      && (forall i | 0 <= i < |tonApi.body.items| :: reply.body[i] == ToSimpleNft(tonApi.body.items[i]))
      && cache.entries == old(cache.entries)[walletAddress := reply.body]
    ensures reply.Failure? ==> cache.entries == old(cache.entries)
  {
    if walletAddress in cache.entries {
      return Success(cache.entries[walletAddress]), false;
    }
    contacted := true;
    if tonApi.TonApiUnreachable? {
      return Failure(STATUS_UNAVAILABLE, TONAPI_UNREACHABLE), contacted;
    }
    if tonApi.status != STATUS_OK {
      return Failure(tonApi.status, TONAPI_NON_200), contacted;
    }
    match tonApi.body {
      case BodyUnreadable =>
        return Failure(STATUS_INTERNAL_ERROR, TONAPI_READ_FAILED), contacted;
      case BodyMalformed =>
        return Failure(STATUS_INTERNAL_ERROR, TONAPI_PARSE_FAILED), contacted;
      case BodyItems(items) =>
        var simpleNfts := TransformItems(items);
        cache.entries := cache.entries[walletAddress := simpleNfts];
        return Success(simpleNfts), contacted;
    }
  }
}
