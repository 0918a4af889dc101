/**
 * The request and response records of `model/models.go` (repeated in the root-package drafts), the
 * record kept in the token store, and how a handler ends.
 */
module Models {
  import opened GoStrings

  datatype TokenRequest = TokenRequest(sde: GoString, authority: GoString)

  datatype TokenResponse = TokenResponse(sde: GoString, token: GoString, requestId: GoString, authority: GoString)

  datatype RedeemRequest = RedeemRequest(token: GoString, authority: GoString)

  datatype RedeemResponse = RedeemResponse(sde: GoString, token: GoString, requestId: GoString, authority: GoString)

  /** `MongoDBTokenStoreDocument`: one document of the `tokenStore` collection. */
  datatype Record = Record(sde: GoString, token: GoString)

  /**
   * How a handler ends. `Unauthorized`, `BadRequest` and `NotFound` are the error statuses with their
   * message; `Ok` is status 200 with the encoded response; `OkEmpty` is a handler that returns
   * without writing anything, which the HTTP server answers with status 200 and an empty body;
   * `Fatal` is `log.Fatalf`, which ends the process.
   */
  datatype Reply<R> = Unauthorized | BadRequest | NotFound | Ok(body: R) | OkEmpty | Fatal

  /**
   * An HTTP request: the `X-API-Key` header, if sent, and the JSON body, `None` when it does not
   * decode into the request record. Fields missing from the JSON decode as empty strings.
   */
  datatype Request<B> = Request(apiKeyHeader: Option<GoString>, body: Option<B>)

  /**
   * What a request depends on besides the vault: the configured `FORTKNOX_API_KEY`, whether the
   * store's `FindOne` fails with an error other than "no document", whether `InsertOne` fails, and
   * the UUID `GetUUID` returns.
   */
  datatype Env = Env(apiKey: Option<GoString>, findFails: bool, insertFails: bool, requestId: GoString)
}
