/**
 * backend-go/api/showcase_handlers.go: `CreateShowcase`,
 * `GetUserShowcases` and `ExportShowcase`, with the `strconv` parsers of
 * their path parameters.
 */
module GoShowcases {
  import opened Wrappers
  import opened Decimal
  import opened GoStore

  // ---------------------------------------------------------------------
  // strconv

  const MAX_INT64: int := 0x7FFF_FFFF_FFFF_FFFF
  const MIN_INT64: int := -0x8000_0000_0000_0000
  const MAX_UINT64: int := 0xFFFF_FFFF_FFFF_FFFF

  /**
   * `strconv.ParseUint(s, 10, 64)`: one or more ASCII digits (no sign, no
   * underscore in base 10) whose value fits in 64 bits; None stands for the
   * syntax and range errors.
   */
  function ParseUint64(s: string): (r: Option<nat>)
    ensures r.Some? ==> r.value <= MAX_UINT64
  {
    if s != [] && AllDigits(s) && DigitsValue(s) <= MAX_UINT64 then Some(DigitsValue(s)) else None
  }

  /** `strconv.ParseInt(s, 10, 64)`: an optional `+` or `-`, then what `ParseUint` accepts, in range. */
  function ParseInt64(s: string): (r: Option<int>)
    ensures r.Some? ==> MIN_INT64 <= r.value <= MAX_INT64
  {
    if s == [] then None
    else
      var negative := s[0] == '-';
      var digits := if s[0] == '+' || s[0] == '-' then s[1..] else s;
      if digits == [] || !AllDigits(digits) then None
      else
        var magnitude: int := DigitsValue(digits);
        if negative && magnitude <= -MIN_INT64 then Some(-magnitude)
        else if !negative && magnitude <= MAX_INT64 then Some(magnitude)
        else None
  }

  /** `strconv.FormatInt(n, 10)`: how an ID is written into a path. */
  function FormatInt(n: int): string {
    if n < 0 then "-" + NatToDecimal(-n) else NatToDecimal(n)
  }

  /** Every 64-bit value's decimal form parses back to it. */
  lemma ParseUint64RoundTrip(n: nat)
    requires n <= MAX_UINT64
    ensures ParseUint64(NatToDecimal(n)) == Some(n)
  {
    DecimalRoundTrip(n);
  }

  lemma ParseInt64RoundTrip(n: int)
    requires MIN_INT64 <= n <= MAX_INT64
    ensures ParseInt64(FormatInt(n)) == Some(n)
  {
    if n < 0 {
      var d := NatToDecimal(-n);
      var s := FormatInt(n);
      assert s == "-" + d;
      assert s[0] == '-' && s[1..] == d;
      DecimalRoundTrip(-n);
      assert DigitsValue(d) == -n <= -MIN_INT64;
    } else {
      var s := NatToDecimal(n);
      assert s[0] != '+' && s[0] != '-' by { assert IsDigit(s[0]); }
      DecimalRoundTrip(n);
    }
  }

  /** Whatever parses reads back as a decimal numeral of its value (leading zeros allowed). */
  lemma ParseUint64Accepts(s: string)
    requires ParseUint64(s).Some?
    ensures AllDigits(s) && DigitsValue(s) == ParseUint64(s).value
  {
  }

  /** `ParseUint` refuses a sign and the empty string; `ParseInt` takes either sign. */
  lemma SignExamples()
    ensures ParseUint64("+7") == None && ParseUint64("-7") == None && ParseUint64("") == None
    ensures ParseInt64("+7") == Some(7) && ParseInt64("-7") == Some(-7) && ParseInt64("-") == None
  {
    assert !IsDigit("+7"[0]) && !IsDigit("-7"[0]);
    assert "+7"[1..] == "7" && "-7"[1..] == "7";
    assert DigitsValue("7") == 7 by {
      assert "7"[..0] == "";
    }
  }

  // ---------------------------------------------------------------------
  // CreateShowcase

  /** `CreateShowcaseRequest` as JSON binding decodes it. */
  datatype CreateShowcaseRequest = CreateShowcaseRequest(telegramId: int, title: string, description: string)

  const INVALID_CREATE_BODY: string := "Invalid request body: "
  const CREATE_USER_NOT_FOUND: string := "User not found for the given Telegram ID"
  const CREATE_FAILED: string := "Failed to create showcase in database"

  /** `binding:"required"` rejects the zero value of a field: 0 and "". */
  predicate BindingSatisfied(req: CreateShowcaseRequest) {
    req.telegramId != 0 && req.title != ""
  }

  /**
   * `CreateShowcase`. `body` is the decoded JSON (None when it is not a
   * valid body), `bindError` the text of the error `ShouldBindJSON` returns
   * when decoding or the `required` check fails (gin's decoder and
   * validator compose it), `createFails` whether the `Create` reports an
   * error.
   */
  method CreateShowcase(db: Database, body: Option<CreateShowcaseRequest>, bindError: string, createFails: bool)
    returns (reply: JsonReply<GoShowcase>)
    requires db.Valid()
    modifies db
    ensures db.Valid() && db.users == old(db.users)
    ensures body.None? || !BindingSatisfied(body.value) <==> reply.Failure? && reply.status == STATUS_BAD_REQUEST
    ensures body.None? || !BindingSatisfied(body.value) ==>
      reply == Failure(STATUS_BAD_REQUEST, INVALID_CREATE_BODY + bindError)
    ensures body.Some? && BindingSatisfied(body.value) && IndexOfTelegramId(db.users, body.value.telegramId).None? ==>
      reply == Failure(STATUS_NOT_FOUND, CREATE_USER_NOT_FOUND)
    ensures body.Some? && BindingSatisfied(body.value) && IndexOfTelegramId(db.users, body.value.telegramId).Some? && createFails ==>
      reply == Failure(STATUS_INTERNAL_ERROR, CREATE_FAILED)
    ensures reply.Failure? ==> unchanged(db)
    ensures reply.Success? ==>
      && body.Some? && BindingSatisfied(body.value) && !createFails
      && var owner := db.users[IndexOfTelegramId(db.users, body.value.telegramId).value];
      && reply.body == GoShowcase(old(db.nextShowcaseId), owner.id, body.value.title, body.value.description, [])
      && db.showcases == old(db.showcases) + [reply.body]
  {
    if body.None? || !BindingSatisfied(body.value) {
      return Failure(STATUS_BAD_REQUEST, INVALID_CREATE_BODY + bindError);
    }
    var req := body.value;
    var found := IndexOfTelegramId(db.users, req.telegramId);
    if found.None? {
      return Failure(STATUS_NOT_FOUND, CREATE_USER_NOT_FOUND);
    }
    var user := db.users[found.value];
    var showcase := GoShowcase(db.nextShowcaseId, user.id, req.title, req.description, []);
    if createFails {
      return Failure(STATUS_INTERNAL_ERROR, CREATE_FAILED);
    }
    db.showcases := db.showcases + [showcase];
    db.nextShowcaseId := db.nextShowcaseId + 1;
    return Success(showcase);
  }

  // ---------------------------------------------------------------------
  // GetUserShowcases

  const INVALID_TELEGRAM_ID: string := "Invalid Telegram ID format"
  const USER_NOT_FOUND: string := "User not found"
  const RETRIEVE_FAILED: string := "Failed to retrieve showcases"

  /** `Where("user_id = ?", userId).Find(&showcases)`, in table order. */
  function OwnedBy(showcases: seq<GoShowcase>, userId: nat): (r: seq<GoShowcase>)
    ensures forall s | s in r :: s in showcases && s.userId == userId
    ensures forall s | s in showcases && s.userId == userId :: s in r
    ensures |r| <= |showcases|
  {
    if showcases == [] then []
    else (if showcases[0].userId == userId then [showcases[0]] else []) + OwnedBy(showcases[1..], userId)
  }

  /** A user without showcases gets the empty array, never `null`. */
  lemma NoShowcasesGivesEmptyArray(showcases: seq<GoShowcase>, userId: nat)
    requires forall s | s in showcases :: s.userId != userId
    ensures OwnedBy(showcases, userId) == []
  {
    if OwnedBy(showcases, userId) != [] {
      assert OwnedBy(showcases, userId)[0] in OwnedBy(showcases, userId);
    }
  }

  /** `GetUserShowcases`; `findFails` is whether the showcase query reports an error. */
  method GetUserShowcases(db: Database, telegramIdParam: string, findFails: bool)
    returns (reply: JsonReply<seq<GoShowcase>>)
    ensures ParseInt64(telegramIdParam).None? <==> reply == Failure(STATUS_BAD_REQUEST, INVALID_TELEGRAM_ID)
    ensures ParseInt64(telegramIdParam).Some? && IndexOfTelegramId(db.users, ParseInt64(telegramIdParam).value).None? ==>
      reply == Failure(STATUS_NOT_FOUND, USER_NOT_FOUND)
    ensures reply.Success? <==>
      ParseInt64(telegramIdParam).Some? && IndexOfTelegramId(db.users, ParseInt64(telegramIdParam).value).Some? && !findFails
    ensures ParseInt64(telegramIdParam).Some? && IndexOfTelegramId(db.users, ParseInt64(telegramIdParam).value).Some? && findFails ==>
      reply == Failure(STATUS_INTERNAL_ERROR, RETRIEVE_FAILED)
    ensures reply.Success? ==>
      reply.body == OwnedBy(db.showcases, db.users[IndexOfTelegramId(db.users, ParseInt64(telegramIdParam).value).value].id)
  {
    var telegramId := ParseInt64(telegramIdParam);
    if telegramId.None? {
      return Failure(STATUS_BAD_REQUEST, INVALID_TELEGRAM_ID);
    }
    var found := IndexOfTelegramId(db.users, telegramId.value);
    if found.None? {
      return Failure(STATUS_NOT_FOUND, USER_NOT_FOUND);
    }
    if findFails {
      return Failure(STATUS_INTERNAL_ERROR, RETRIEVE_FAILED);
    }
    return Success(OwnedBy(db.showcases, db.users[found.value].id));
  }

  // ---------------------------------------------------------------------
  // ExportShowcase

  const INVALID_SHOWCASE_ID: string := "Invalid Showcase ID format"
  const SHOWCASE_NOT_FOUND: string := "Showcase not found"
  const EMPTY_SHOWCASE: string := "Cannot export a showcase with no NFTs"
  const COLLAGE_UNREACHABLE: string := "Failed to contact collage service"
  const COLLAGE_ERROR: string := "Collage service returned an error"
  const STATUS_OK: int := 200

  /** What the collage service answers: no connection, or a status and a body. */
  datatype CollageReply = CollageUnreachable | CollageAnswered(status: int, body: seq<int>)

  /** The export's answer: the PNG streamed through, or a JSON error (with the service's body as details). */
  datatype ExportReply = PngAttachment(png: seq<int>) | ExportFailure(status: int, error: string, details: seq<int>)

  /** The loop filling `imageUrls`: one URL per NFT, in order. */
  method ImageUrls(nfts: seq<GoShowcaseNft>) returns (imageUrls: seq<string>)
    ensures |imageUrls| == |nfts|
    ensures forall i | 0 <= i < |nfts| :: imageUrls[i] == nfts[i].image
  {
    var urls := new string[|nfts|](_ => "");
    for i := 0 to |nfts|
      invariant forall j | 0 <= j < i :: urls[j] == nfts[j].image
    {
      urls[i] := nfts[i].image;
    }
    imageUrls := urls[..];
  }

  /**
   * `ExportShowcase`. `collage` is what the collage service answers;
   * `sent` is the `image_urls` list posted to it, None when no request
   * is made.
   */
  method ExportShowcase(db: Database, idParam: string, collage: CollageReply)
    returns (reply: ExportReply, sent: Option<seq<string>>)
    ensures ParseUint64(idParam).None? ==> reply == ExportFailure(STATUS_BAD_REQUEST, INVALID_SHOWCASE_ID, []) && sent == None
    ensures ParseUint64(idParam).Some? && IndexOfShowcase(db.showcases, ParseUint64(idParam).value).None? ==>
      reply == ExportFailure(STATUS_NOT_FOUND, SHOWCASE_NOT_FOUND, []) && sent == None
    ensures sent.Some? <==>
      && ParseUint64(idParam).Some? && IndexOfShowcase(db.showcases, ParseUint64(idParam).value).Some?
      && db.showcases[IndexOfShowcase(db.showcases, ParseUint64(idParam).value).value].showcaseNfts != []
    ensures sent.Some? ==>
      var nfts := db.showcases[IndexOfShowcase(db.showcases, ParseUint64(idParam).value).value].showcaseNfts;
      && |sent.value| == |nfts| > 0
      && (forall i | 0 <= i < |nfts| :: sent.value[i] == nfts[i].image)
    ensures sent.None? && ParseUint64(idParam).Some? && IndexOfShowcase(db.showcases, ParseUint64(idParam).value).Some? ==>
      reply == ExportFailure(STATUS_BAD_REQUEST, EMPTY_SHOWCASE, [])
    ensures sent.Some? && collage.CollageUnreachable? ==> reply == ExportFailure(STATUS_UNAVAILABLE, COLLAGE_UNREACHABLE, [])
    ensures sent.Some? && collage.CollageAnswered? && collage.status != STATUS_OK ==>
      reply == ExportFailure(STATUS_INTERNAL_ERROR, COLLAGE_ERROR, collage.body)
    ensures sent.Some? && collage.CollageAnswered? && collage.status == STATUS_OK ==> reply == PngAttachment(collage.body)
    ensures reply.PngAttachment? ==> sent.Some?
  {
    sent := None;
    var showcaseId := ParseUint64(idParam);
    if showcaseId.None? {
      return ExportFailure(STATUS_BAD_REQUEST, INVALID_SHOWCASE_ID, []), sent;
    }
    var found := IndexOfShowcase(db.showcases, showcaseId.value);
    if found.None? {
      return ExportFailure(STATUS_NOT_FOUND, SHOWCASE_NOT_FOUND, []), sent;
    }
    var showcase := db.showcases[found.value];
    if |showcase.showcaseNfts| == 0 {
      return ExportFailure(STATUS_BAD_REQUEST, EMPTY_SHOWCASE, []), sent;
    }
    var imageUrls := ImageUrls(showcase.showcaseNfts);
    sent := Some(imageUrls);
    match collage {
      case CollageUnreachable =>
        return ExportFailure(STATUS_UNAVAILABLE, COLLAGE_UNREACHABLE, []), sent;
      case CollageAnswered(status, body) =>
        if status != STATUS_OK {
          return ExportFailure(STATUS_INTERNAL_ERROR, COLLAGE_ERROR, body), sent;
        }
        return PngAttachment(body), sent;
    }
  }
}
