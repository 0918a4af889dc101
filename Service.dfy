/**
 * `service/controllers.go`: the live `CreateToken` and `RedeemToken` handlers over the package's
 * shared cache, collection and authority map.
 */
module Service {
  import opened GoStrings
  import opened Models
  import opened Helpers
  import opened TokenVault

  /** `CreateToken` as a whole: the API-key gate, then the shared create logic, echoing the
      request's authority. */
  function CreateStep(s: VaultState, authorities: map<GoString, bool>, req: Request<TokenRequest>, env: Env)
    : (VaultState, Reply<TokenResponse>)
  {
    if !IsValidAPIKey(req.apiKeyHeader, env.apiKey) then (s, Unauthorized)
    else Create(s, authorities, req.body, env, true)
  }

  /**
   * `RedeemToken` as a whole: the API-key gate, the JSON decoding and the authority gate; then a
   * cache hit returns without writing a body, and otherwise the store is searched by token: a hit
   * caches both directions and answers with the record's SDE, a miss is `NotFound`.
   */
  function RedeemStep(s: VaultState, authorities: map<GoString, bool>, req: Request<RedeemRequest>, env: Env)
    : (VaultState, Reply<RedeemResponse>)
  {
    if !IsValidAPIKey(req.apiKeyHeader, env.apiKey) then (s, Unauthorized)
    else if req.body.None? then (s, Fatal)
    else
      var r := req.body.value;
      if r.authority !in authorities then (s, BadRequest)
      else if r.token in s.cache then (s, OkEmpty)
      else
        var result := Lookup(s.collection, ByToken(r.token), env.findFails);
        if result.None? then (s, NotFound)
        else
          var sde := result.value.sde;
          (VaultState(CacheBoth(s.cache, r.token, sde), s.collection),
           Ok(RedeemResponse(sde, r.token, env.requestId, r.authority)))
  }

  /** The package-level state of `service/controllers.go`: `localCache`, `collection` and
      `authorityMap`. */
  class Vault {
    var cache: map<GoString, GoString>
    var collection: seq<Record>
    const authorityMap: map<GoString, bool>

    function State(): VaultState
      reads this
    {
      VaultState(cache, collection)
    }

    predicate Valid()
      reads this
    {
      IsAuthorityMap(authorityMap) && Consistent(State())
    }

    /** Package initialisation: an empty cache, the collection as found, and the whitelist. */
    constructor(records: seq<Record>)
      requires Tokenised(records)
      ensures Valid()
      ensures cache == map[] && collection == records
    {
      var m := HydrateAuthorityMap();
      authorityMap := m;
      cache := map[];
      collection := records;
    }

    /** `CreateToken`, step by step. */
    method CreateToken(request: Request<TokenRequest>, env: Env) returns (reply: Reply<TokenResponse>)
      requires Valid()
      modifies this
      ensures Valid()
      ensures (State(), reply) == CreateStep(old(State()), authorityMap, request, env)
    {
      ghost var s0 := State();
      if !IsValidAPIKey(request.apiKeyHeader, env.apiKey) {
        return Unauthorized;
      }
      if request.body.None? {
        return Fatal;
      }
      var tokenRequest := request.body.value;
      if tokenRequest.authority !in authorityMap {
        return BadRequest;
      }
      var tokenResponse := TokenResponse(tokenRequest.sde, [], [], tokenRequest.authority);
      if tokenRequest.sde in cache {
        tokenResponse := tokenResponse.(token := cache[tokenRequest.sde]);
      } else {
        var result := Lookup(collection, BySde(tokenRequest.sde), env.findFails);
        if result.Some? {
          tokenResponse := tokenResponse.(token := result.value.sde);
          cache := cache[tokenResponse.token := tokenRequest.sde];
          cache := cache[tokenRequest.sde := tokenResponse.token];
        } else {
          tokenResponse := tokenResponse.(token := TokanizeSDE(tokenRequest.sde));
          cache := cache[tokenResponse.token := tokenRequest.sde];
          cache := cache[tokenRequest.sde := tokenResponse.token];
          if env.insertFails {
            IssueConsistent(s0, tokenRequest.sde, env.findFails, env.insertFails);
            return Fatal;
          }
          collection := collection + [Record(tokenRequest.sde, tokenResponse.token)];
        }
      }
      tokenResponse := tokenResponse.(requestId := env.requestId);
      IssueConsistent(s0, tokenRequest.sde, env.findFails, env.insertFails);
      return Ok(tokenResponse);
    }

    /** `RedeemToken`, step by step. */
    method RedeemToken(request: Request<RedeemRequest>, env: Env) returns (reply: Reply<RedeemResponse>)
      requires Valid()
      modifies this
      ensures Valid()
      ensures (State(), reply) == RedeemStep(old(State()), authorityMap, request, env)
    {
      if !IsValidAPIKey(request.apiKeyHeader, env.apiKey) {
        return Unauthorized;
      }
      if request.body.None? {
        return Fatal;
      }
      var redeemRequest := request.body.value;
      if redeemRequest.authority !in authorityMap {
        return BadRequest;
      }
      var redeemResponse := RedeemResponse([], [], [], redeemRequest.authority);
      if redeemRequest.token in cache {
        // the SDE is filled in, but nothing is encoded
        redeemResponse := redeemResponse.(sde := cache[redeemRequest.token]);
        return OkEmpty;
      }
      var result := Lookup(collection, ByToken(redeemRequest.token), env.findFails);
      if result.None? {
        return NotFound;
      }
      RedeemHitRelated(collection, redeemRequest.token, env.findFails);
      redeemResponse := redeemResponse.(sde := result.value.sde);
      cache := cache[redeemRequest.token := redeemResponse.sde];
      cache := cache[redeemResponse.sde := redeemRequest.token];
      redeemResponse := redeemResponse.(token := redeemRequest.token, requestId := env.requestId);
      return Ok(redeemResponse);
    }

    /** Cache entries expiring between requests: any set of keys may go. */
    method Expire(keys: set<GoString>)
      requires Valid()
      modifies this
      ensures Valid()
      ensures cache == old(cache) - keys && collection == old(collection)
    {
      cache := cache - keys;
    }
  }

  /** The record a redeem finds pairs the token with an SDE whose encoding it is. */
  lemma RedeemHitRelated(records: seq<Record>, token: GoString, findFails: bool)
    requires Tokenised(records)
    requires Lookup(records, ByToken(token), findFails).Some?
    ensures var sde := Lookup(records, ByToken(token), findFails).value.sde;
      token == TokanizeSDE(sde) && Related(token, sde) && Related(sde, token)
  {
    var r := Lookup(records, ByToken(token), findFails).value;
    var i :| 0 <= i < |records| && records[i] == r;
  }
}
