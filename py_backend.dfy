/**
 * backend/main.py: `connect_or_update_user`, `search_users`,
 * `get_user_profile` and the cache-aside `get_user_nfts`.
 */
module PyBackend {
  import opened Wrappers
  import opened PyStore

  // ---------------------------------------------------------------------
  // connect_or_update_user

  /** `schemas.UserConnect`. */
  datatype UserConnect = UserConnect(telegramId: int, username: Option<string>, walletAddress: string)

  /**
   * An existing user gets the new username and wallet and keeps the first
   * name; an unknown Telegram ID gets a new row with no first name. The
   * refreshed row is returned.
   */
  method ConnectOrUpdateUser(db: PyDatabase, data: UserConnect) returns (user: PyUser)
    requires db.Valid()
    modifies db
    ensures db.Valid() && db.nftCache == old(db.nftCache)
    ensures user.telegramId == data.telegramId && user.username == data.username
    ensures user.walletAddress == data.walletAddress
    ensures FindUser(db.users, data.telegramId).Some? && db.users[FindUser(db.users, data.telegramId).value] == user
    ensures FindUser(old(db.users), data.telegramId).Some? ==>
      var i := FindUser(old(db.users), data.telegramId).value;
      && db.users == old(db.users)[i := user]
      && user.id == old(db.users)[i].id && user.firstName == old(db.users)[i].firstName
    ensures FindUser(old(db.users), data.telegramId).None? ==>
      && user == PyUser(old(db.nextUserId), data.telegramId, data.walletAddress, data.username, None)
      && db.users == old(db.users) + [user]
  {
    var found := FindUser(db.users, data.telegramId);
    if found.Some? {
      var i := found.value;
      user := db.users[i].(username := data.username, walletAddress := data.walletAddress);
      UpdateKeepsUsersValid(db.users, db.nextUserId, i, user);
      db.users := db.users[i := user];
    } else {
      user := PyUser(db.nextUserId, data.telegramId, data.walletAddress, data.username, None);
      AppendKeepsUsersValid(db.users, db.nextUserId, user);
      db.users := db.users + [user];
      db.nextUserId := db.nextUserId + 1;
    }
  }

  // ---------------------------------------------------------------------
  // search_users

  const SEARCH_LIMIT: nat := 20

  /** ASCII case folding, the only folding SQLite's `lower()` and `LIKE` do. */
  function Fold(c: char): char {
    if 'A' <= c <= 'Z' then (c as int + 32) as char else c
  }

  /**
   * `lower(username) LIKE lower(pattern)`, which SQLAlchemy's `ilike`
   * becomes on SQLite: `%` matches any run of characters, `_` any single
   * character, and every other character itself up to ASCII case. No
   * escape character is declared.
   */
  predicate Like(s: string, p: string)
    decreases |s| + |p|
  {
    if p == [] then s == []
    else if p[0] == '%' then Like(s, p[1..]) || (s != [] && Like(s[1..], p))
    else s != [] && (p[0] == '_' || Fold(s[0]) == Fold(p[0])) && Like(s[1..], p[1..])
  }

  predicate NoWildcards(q: string) {
    forall i | 0 <= i < |q| :: q[i] != '%' && q[i] != '_'
  }

  /** `q` occurs in `s` up to ASCII case. */
  ghost predicate ContainsFolded(s: string, q: string) {
    exists i :: 0 <= i && OccursAt(s, q, i)
  }

  predicate OccursAt(s: string, q: string, i: nat) {
    i + |q| <= |s| && FoldEqual(s[i..i + |q|], q)
  }

  predicate FoldEqual(a: string, b: string) {
    |a| == |b| && forall i | 0 <= i < |a| :: Fold(a[i]) == Fold(b[i])
  }

  lemma {:induction false} LikeTrailingPercent(s: string)
    ensures Like(s, "%")
  {
    if s != [] {
      LikeTrailingPercent(s[1..]);
    }
  }

  /** Without wildcards, `q%` matches exactly the strings that start with `q` up to case. */
  lemma {:induction false} LikePrefix(t: string, q: string)
    requires NoWildcards(q)
    ensures Like(t, q + "%") <==> |q| <= |t| && FoldEqual(t[..|q|], q)
  {
    if q == [] {
      assert q + "%" == "%";
      LikeTrailingPercent(t);
    } else {
      assert (q + "%")[1..] == q[1..] + "%";
      assert NoWildcards(q[1..]);
      if t != [] {
        LikePrefix(t[1..], q[1..]);
        if |q| <= |t| {
          assert t[..|q|] == [t[0]] + t[1..][..|q| - 1];
        }
      }
    }
  }

  /** A leading `%` tries every suffix. */
  lemma {:induction false} LikeLeadingPercent(s: string, r: string)
    ensures Like(s, "%" + r) <==> exists i :: 0 <= i <= |s| && Like(s[i..], r)
  {
    var p := "%" + r;
    assert p[0] == '%' && p[1..] == r;
    assert s[0..] == s;
    if s != [] {
      LikeLeadingPercent(s[1..], r);
      if Like(s, p) && !Like(s, r) {
        assert Like(s[1..], p);
        var i :| 0 <= i <= |s[1..]| && Like(s[1..][i..], r);
        assert s[1..][i..] == s[i + 1..];
        assert Like(s[i + 1..], r);
      }
      if exists i :: 0 <= i <= |s| && Like(s[i..], r) {
        var i :| 0 <= i <= |s| && Like(s[i..], r);
        if i > 0 {
          assert s[1..][i - 1..] == s[i..];
          assert Like(s[1..], p);
        }
      }
    } else {
      if exists i :: 0 <= i <= |s| && Like(s[i..], r) {
        var i :| 0 <= i <= |s| && Like(s[i..], r);
        assert s[i..] == s;
      }
    }
  }

  /** For a query without wildcards, `%q%` matches exactly the usernames containing it up to case. */
  lemma SearchPatternMatchesContainment(s: string, q: string)
    requires NoWildcards(q)
    ensures Like(s, "%" + q + "%") <==> ContainsFolded(s, q)
  {
    assert "%" + q + "%" == "%" + (q + "%");
    LikeLeadingPercent(s, q + "%");
    if Like(s, "%" + q + "%") {
      var i :| 0 <= i <= |s| && Like(s[i..], q + "%");
      LikePrefix(s[i..], q);
      assert s[i..][..|q|] == s[i..i + |q|];
      assert OccursAt(s, q, i);
    }
    if ContainsFolded(s, q) {
      var i :| 0 <= i && OccursAt(s, q, i);
      LikePrefix(s[i..], q);
      assert s[i..][..|q|] == s[i..i + |q|];
    }
  }

  /** `_` is not escaped: a query of "_" matches every non-empty username. */
  lemma UnderscoreMatchesAnyName(s: string)
    requires s != []
    ensures Like(s, "%" + "_" + "%")
  {
    LikeLeadingPercent(s, "_%");
    assert s[0..] == s;
    assert "_%"[1..] == "%";
    LikeTrailingPercent(s[1..]);
  }

  /** The rows whose username matches, in table order. */
  function Matching(users: seq<PyUser>, pattern: string): (r: seq<PyUser>)
    ensures forall u | u in r :: u in users && u.username.Some? && Like(u.username.value, pattern)
    ensures |r| <= |users|
  {
    if users == [] then []
    else
      var head := users[0];
      (if head.username.Some? && Like(head.username.value, pattern) then [head] else [])
        + Matching(users[1..], pattern)
  }

  lemma {:induction false} MatchingComplete(users: seq<PyUser>, pattern: string, u: PyUser)
    requires u in users && u.username.Some? && Like(u.username.value, pattern)
    ensures u in Matching(users, pattern)
  {
    if users[0] != u {
      MatchingComplete(users[1..], pattern, u);
    }
  }

  /**
   * `search_users`: "" gives []; otherwise the first 20 rows, in table
   * order, whose non-null username matches `%q%`.
   */
  function SearchUsers(users: seq<PyUser>, q: string): (r: seq<PyUser>)
    ensures |r| <= SEARCH_LIMIT
    ensures q == "" ==> r == []
    ensures forall u | u in r :: u in users && u.username.Some? && Like(u.username.value, "%" + q + "%")
  {
    if q == "" then []
    else
      var all := Matching(users, "%" + q + "%");
      if |all| <= SEARCH_LIMIT then all else all[..SEARCH_LIMIT]
  }

  /** Fewer than 20 results means no matching user was cut off. */
  lemma SearchCompleteUnderLimit(users: seq<PyUser>, q: string, u: PyUser)
    requires q != "" && |SearchUsers(users, q)| < SEARCH_LIMIT
    requires u in users && u.username.Some? && Like(u.username.value, "%" + q + "%")
    ensures u in SearchUsers(users, q)
  {
    MatchingComplete(users, "%" + q + "%", u);
  }

  // ---------------------------------------------------------------------
  // get_user_profile

  const USER_NOT_FOUND: string := "User not found"
  const STATUS_NOT_FOUND: int := 404
  const STATUS_UNAVAILABLE: int := 503

  /** `get_user_profile`: the row with that Telegram ID, or 404. */
  function GetUserProfile(users: seq<PyUser>, telegramId: int): (r: HttpResult<PyUser>)
    ensures r.HttpError? <==> forall j | 0 <= j < |users| :: users[j].telegramId != telegramId
    ensures r.HttpError? ==> r == HttpError(STATUS_NOT_FOUND, USER_NOT_FOUND)
    ensures r.Ok? ==> r.body in users && r.body.telegramId == telegramId
  {
    match FindUser(users, telegramId)
    case None => HttpError(STATUS_NOT_FOUND, USER_NOT_FOUND)
    case Some(i) => Ok(users[i])
  }

  // ---------------------------------------------------------------------
  // get_user_nfts

  const CACHE_TTL_SECONDS: int := 3600
  const PROVIDER_FAILED: string := "Could not fetch NFT data from provider."

  /** `cache_age < timedelta(hours=1)`, with times in seconds. */
  predicate Fresh(entry: CacheEntry, now: int) {
    now - entry.cachedAt < CACHE_TTL_SECONDS
  }

  /** The answer, the cache table afterwards, and whether the provider was called. */
  datatype NftsOutcome = NftsOutcome(reply: HttpResult<seq<RawNft>>, cache: map<string, CacheEntry>, providerCalled: bool)

  /**
   * The cache-aside decision for one wallet: a fresh row answers alone;
   * otherwise the provider is asked, and its data replaces the row's data
   * (leaving `cached_at` as inserted) or becomes a new row stamped `now`;
   * a failed provider falls back to the stale row, or 503 without one.
   */
  function NftsFor(cache: map<string, CacheEntry>, wallet: string, now: int, provided: Option<seq<RawNft>>): (o: NftsOutcome)
    ensures !o.providerCalled <==> wallet in cache && Fresh(cache[wallet], now)
    ensures !o.providerCalled ==> o.reply == Ok(cache[wallet].nftData) && o.cache == cache
    ensures o.providerCalled && provided.Some? ==> o.reply == Ok(provided.value)
    ensures o.providerCalled && provided.None? ==> o.cache == cache
    ensures o.providerCalled && provided.None? && wallet in cache ==> o.reply == Ok(cache[wallet].nftData)
    ensures o.providerCalled && provided.Some? ==>
      && wallet in o.cache && o.cache[wallet].nftData == provided.value
      && (wallet in cache ==> o.cache[wallet].cachedAt == cache[wallet].cachedAt)
      && (wallet !in cache ==> o.cache[wallet].cachedAt == now)
      && forall w | w in cache && w != wallet :: w in o.cache && o.cache[w] == cache[w]
    ensures o.reply.HttpError? <==> o.providerCalled && provided.None? && wallet !in cache
    ensures o.cache.Keys == cache.Keys + (if o.providerCalled && provided.Some? then {wallet} else {})
  {
    if wallet in cache && Fresh(cache[wallet], now) then NftsOutcome(Ok(cache[wallet].nftData), cache, false)
    else match provided
      case Some(data) =>
        var entry := if wallet in cache then cache[wallet].(nftData := data) else CacheEntry(data, now);
        NftsOutcome(Ok(data), cache[wallet := entry], true)
      case None =>
        if wallet in cache then NftsOutcome(Ok(cache[wallet].nftData), cache, true)
        else NftsOutcome(HttpError(STATUS_UNAVAILABLE, PROVIDER_FAILED), cache, true)
  }

  /**
   * A refreshed row keeps its insertion time, so once a row has gone stale
   * every later request calls the provider again.
   */
  lemma StaleEntryStaysStale(cache: map<string, CacheEntry>, wallet: string, now: int, later: int,
                             data: seq<RawNft>, next: Option<seq<RawNft>>)
    requires wallet in cache && !Fresh(cache[wallet], now) && now <= later
    ensures var afterRefresh := NftsFor(cache, wallet, now, Some(data)).cache;
      && afterRefresh[wallet].cachedAt == cache[wallet].cachedAt
      && NftsFor(afterRefresh, wallet, later, next).providerCalled
  {
  }

  /** A new row is stamped with the time of the request that created it. */
  lemma NewEntryFreshForAnHour(cache: map<string, CacheEntry>, wallet: string, now: int, later: int,
                               data: seq<RawNft>, next: Option<seq<RawNft>>)
    requires wallet !in cache && now <= later < now + CACHE_TTL_SECONDS
    ensures var afterFetch := NftsFor(cache, wallet, now, Some(data)).cache;
      NftsFor(afterFetch, wallet, later, next) == NftsOutcome(Ok(data), afterFetch, false)
  {
  }

  // ---------------------------------------------------------------------
  // response_model=list[schemas.NftItem]

  const STATUS_INTERNAL_ERROR: int := 500
  const INTERNAL_ERROR: string := "Internal Server Error"
  const UNTITLED: string := "Untitled NFT"
  const NO_DESCRIPTION: string := "No description available."

  /** `schemas.NftItem` as it is sent; None is JSON `null`. */
  datatype NftItem = NftItem(
    address: string,
    name: Option<string>,
    description: Option<string>,
    previews: Option<seq<NftPreview>>)

  /** An optional field with a default: a missing field takes the default, `null` stays `null`. */
  function WithDefault<T>(f: JsonField<T>, default: T): (r: Option<T>)
    ensures f.Absent? ==> r == Some(default)
    ensures f.Null? <==> r.None?
    ensures f.Present? ==> r == Some(f.value)
  {
    match f
    case Absent => Some(default)
    case Null => None
    case Present(v) => Some(v)
  }

  /** Validating one item against `schemas.NftItem`: only a missing or null `address` fails. */
  function ToNftItem(raw: RawNft): (r: Option<NftItem>)
    ensures r.None? <==> !raw.address.Present?
  {
    if !raw.address.Present? then None
    else Some(NftItem(raw.address.value, WithDefault(raw.name, UNTITLED),
                      WithDefault(raw.description, NO_DESCRIPTION), WithDefault(raw.previews, [])))
  }

  /** An item validates exactly when every item has an address. */
  predicate AllValidate(raws: seq<RawNft>) {
    forall i | 0 <= i < |raws| :: raws[i].address.Present?
  }

  /**
   * The response serialization: every item validated and reshaped in
   * order, or FastAPI's 500 when one of them fails validation.
   */
  function SerializeNfts(raws: seq<RawNft>): (r: HttpResult<seq<NftItem>>)
    ensures r.HttpError? ==> r == HttpError(STATUS_INTERNAL_ERROR, INTERNAL_ERROR)
    ensures r.Ok? ==> |r.body| == |raws|
  {
    if raws == [] then Ok([])
    else match (ToNftItem(raws[0]), SerializeNfts(raws[1..]))
      case (Some(item), Ok(rest)) => Ok([item] + rest)
      case _ => HttpError(STATUS_INTERNAL_ERROR, INTERNAL_ERROR)
  }

  /** The answer is a 500 exactly when some item lacks an address; otherwise it is item by item. */
  lemma {:induction false} SerializeNftsItemwise(raws: seq<RawNft>)
    ensures SerializeNfts(raws).Ok? <==> AllValidate(raws)
    ensures SerializeNfts(raws).Ok? ==>
      forall i | 0 <= i < |raws| :: ToNftItem(raws[i]) == Some(SerializeNfts(raws).body[i])
  {
    if raws != [] {
      SerializeNftsItemwise(raws[1..]);
      assert AllValidate(raws) <==> raws[0].address.Present? && AllValidate(raws[1..]) by {
        if raws[0].address.Present? && AllValidate(raws[1..]) {
          forall i | 0 <= i < |raws| ensures raws[i].address.Present? {
            if i > 0 {
              assert raws[i] == raws[1..][i - 1];
            }
          }
        }
      }
      if SerializeNfts(raws).Ok? {
        var body := SerializeNfts(raws).body;
        forall i | 0 <= i < |raws| ensures ToNftItem(raws[i]) == Some(body[i]) {
          if i > 0 {
            assert raws[i] == raws[1..][i - 1];
            assert body[i] == SerializeNfts(raws[1..]).body[i - 1];
          }
        }
      }
    }
  }

  /** An item in the response's shape, written back as JSON with every field present. */
  function AsRaw(item: NftItem): RawNft {
    RawNft(Present(item.address),
           if item.name.Some? then Present(item.name.value) else Null,
           if item.description.Some? then Present(item.description.value) else Null,
           if item.previews.Some? then Present(item.previews.value) else Null)
  }

  /** Validation is a projection: an item already in the response's shape passes unchanged. */
  lemma ValidationIsProjection(raw: RawNft)
    requires raw.address.Present?
    ensures ToNftItem(AsRaw(ToNftItem(raw).value)) == ToNftItem(raw)
  {
  }

  /**
   * A TonAPI item carries its name and description under `metadata`, not
   * at the top level, so the response gives it those two defaults; its
   * `previews` are top-level and kept.
   */
  lemma ProviderItemGetsDefaults(address: string, previews: seq<NftPreview>)
    ensures ToNftItem(RawNft(Present(address), Absent, Absent, Present(previews))) ==
      Some(NftItem(address, Some(UNTITLED), Some(NO_DESCRIPTION), Some(previews)))
  {
  }

  /** What `get_user_nfts` sends for the outcome of its handler body. */
  function Respond(r: HttpResult<seq<RawNft>>): HttpResult<seq<NftItem>> {
    match r
    case Ok(raws) => SerializeNfts(raws)
    case HttpError(status, detail) => HttpError(status, detail)
  }

  /**
   * `get_user_nfts`. `now` is the request's clock reading in seconds and
   * `provided` what the provider would return (None on any failure); it is
   * only consulted when `providerCalled`. The handler's return value goes
   * through the declared response model; a failed validation still leaves
   * the committed cache row behind.
   */
  method GetUserNfts(db: PyDatabase, telegramId: int, now: int, provided: Option<seq<RawNft>>)
    returns (reply: HttpResult<seq<NftItem>>, providerCalled: bool)
    modifies db`nftCache
    ensures FindUser(db.users, telegramId).None? ==>
      reply == HttpError(STATUS_NOT_FOUND, USER_NOT_FOUND) && !providerCalled && db.nftCache == old(db.nftCache)
    ensures FindUser(db.users, telegramId).Some? ==>
      var o := NftsFor(old(db.nftCache), db.users[FindUser(db.users, telegramId).value].walletAddress, now, provided);
      reply == Respond(o.reply) && providerCalled == o.providerCalled && db.nftCache == o.cache
  {
    var found := FindUser(db.users, telegramId);
    if found.None? {
      return HttpError(STATUS_NOT_FOUND, USER_NOT_FOUND), false;
    }
    var wallet := db.users[found.value].walletAddress;
    var hasEntry := wallet in db.nftCache;
    if hasEntry && now - db.nftCache[wallet].cachedAt < CACHE_TTL_SECONDS {
      return SerializeNfts(db.nftCache[wallet].nftData), false;
    }
    providerCalled := true;
    if provided.Some? {
      if hasEntry {
        db.nftCache := db.nftCache[wallet := db.nftCache[wallet].(nftData := provided.value)];
      } else {
        db.nftCache := db.nftCache[wallet := CacheEntry(provided.value, now)];
      }
      return SerializeNfts(provided.value), providerCalled;
    }
    if hasEntry {
      return SerializeNfts(db.nftCache[wallet].nftData), providerCalled;
    }
    return HttpError(STATUS_UNAVAILABLE, PROVIDER_FAILED), providerCalled;
  }

  /**
   * `get_user_nfts` as the repository ships it: `models` defines no
   * `NftCache`, so the cache lookup raises `AttributeError` for every known
   * user and FastAPI answers with a bare 500. `GetUserNfts` models the
   * table the handler evidently means.
   */
  function GetUserNftsAsWritten(users: seq<PyUser>, telegramId: int): (r: HttpResult<seq<NftItem>>)
    ensures FindUser(users, telegramId).None? <==> r == HttpError(STATUS_NOT_FOUND, USER_NOT_FOUND)
    ensures FindUser(users, telegramId).Some? <==> r == HttpError(STATUS_INTERNAL_ERROR, INTERNAL_ERROR)
  {
    if FindUser(users, telegramId).None? then HttpError(STATUS_NOT_FOUND, USER_NOT_FOUND)
    else HttpError(STATUS_INTERNAL_ERROR, INTERNAL_ERROR)
  }

  /**
   * A known user whose wallet has a fresh, valid cache row gets that row
   * from the intended handler, but a 500 from the handler as written.
   */
  lemma MissingCacheTableFailsKnownUser(users: seq<PyUser>, telegramId: int, cache: map<string, CacheEntry>,
                                        now: int, provided: Option<seq<RawNft>>)
    requires FindUser(users, telegramId).Some?
    requires var wallet := users[FindUser(users, telegramId).value].walletAddress;
      wallet in cache && Fresh(cache[wallet], now) && AllValidate(cache[wallet].nftData)
    ensures var wallet := users[FindUser(users, telegramId).value].walletAddress;
      && Respond(NftsFor(cache, wallet, now, provided).reply).Ok?
      && GetUserNftsAsWritten(users, telegramId).HttpError?
  {
    var wallet := users[FindUser(users, telegramId).value].walletAddress;
    SerializeNftsItemwise(cache[wallet].nftData);
  }
}
