/** backend/wallets.py: `verify_wallet`, a guarded upsert of all three profile fields. */
module PyWallets {
  import opened Wrappers
  import opened PyStore

  /** `WalletConnectRequest` without `init_data`, which only the verifier reads. */
  datatype WalletConnectRequest = WalletConnectRequest(
    telegramId: int, walletAddress: string, username: Option<string>, firstName: Option<string>)

  const STATUS_FORBIDDEN: int := 403
  const INVALID_INIT_DATA: string := "Invalid initData"
  const SUCCESS: string := "success"

  /**
   * `verify_wallet`. `isValid` is what `TonConnect.verify_telegram_authorization`
   * says about the request's `init_data` and the bot token. The answer body
   * is the `status` value of `{"status": "success"}`.
   */
  method VerifyWallet(db: PyDatabase, request: WalletConnectRequest, isValid: bool) returns (reply: HttpResult<string>)
    requires db.Valid()
    modifies db
    ensures db.Valid() && db.nftCache == old(db.nftCache)
    ensures !isValid ==> reply == HttpError(STATUS_FORBIDDEN, INVALID_INIT_DATA) && unchanged(db)
    ensures isValid ==> reply == Ok(SUCCESS)
    ensures isValid && FindUser(old(db.users), request.telegramId).Some? ==>
      var i := FindUser(old(db.users), request.telegramId).value;
      db.users == old(db.users)[i := old(db.users)[i].(walletAddress := request.walletAddress,
                                                      username := request.username,
                                                      firstName := request.firstName)]
    ensures isValid && FindUser(old(db.users), request.telegramId).None? ==>
      db.users == old(db.users) + [PyUser(old(db.nextUserId), request.telegramId, request.walletAddress,
                                          request.username, request.firstName)]
  {
    if !isValid {
      return HttpError(STATUS_FORBIDDEN, INVALID_INIT_DATA);
    }
    var found := FindUser(db.users, request.telegramId);
    if found.Some? {
      var i := found.value;
      db.users := db.users[i := db.users[i].(walletAddress := request.walletAddress,
                                             username := request.username,
                                             firstName := request.firstName)];
    } else {
      db.users := db.users + [PyUser(db.nextUserId, request.telegramId, request.walletAddress,
                                     request.username, request.firstName)];
      db.nextUserId := db.nextUserId + 1;
    }
    return Ok(SUCCESS);
  }

}
