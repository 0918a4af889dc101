/**
 * The root-package drafts `main.go` and `controllers.go`. They share the create logic of the live
 * service but read no API key, and their redeem never consults the store: on a cache miss it
 * decodes whatever token it is given. `main.go` never fills in the responses' authority;
 * `controllers.go` echoes the request's. `controllers.go` uses the authority map that `main.go`
 * declares and hydrates.
 */
module Drafts {
  import opened GoStrings
  import opened Models
  import opened Helpers
  import opened TokenVault

  /** A Go `map[string]bool`: a reference, so a function it is passed to can fill it in place. */
  class AuthorityTable {
    var entries: map<GoString, bool>

    /** `make(map[string]bool)`. */
    constructor()
      ensures entries == map[]
    {
      entries := map[];
    }
  }

  /** `hydrateAuthorityMap` of `main.go`: sets the four labels to `true` in the given map and
      leaves every other entry as it was. */
  method HydrateInto(authorityMap: AuthorityTable)
    modifies authorityMap
    ensures authorityMap.entries.Keys == old(authorityMap.entries.Keys) + AuthorityLabels
    ensures forall k :: k in AuthorityLabels ==> authorityMap.entries[k]
    ensures forall k :: k in old(authorityMap.entries) && k !in AuthorityLabels
                        ==> authorityMap.entries[k] == old(authorityMap.entries[k])
  {
    authorityMap.entries := authorityMap.entries[Employee := true];
    authorityMap.entries := authorityMap.entries[Name := true];
    authorityMap.entries := authorityMap.entries[CreditCard := true];
    authorityMap.entries := authorityMap.entries[Address := true];
  }

  /**
   * The drafts' `redeemToken`: after the JSON decoding and the authority gate, a cached SDE or else
   * the decoding of the token, always with status 200; the cache and the store are left alone.
   */
  function DecoderRedeem(s: VaultState, authorities: map<GoString, bool>, body: Option<RedeemRequest>, env: Env,
                         echoAuthority: bool): (VaultState, Reply<RedeemResponse>)
  {
    if body.None? then (s, Fatal)
    else
      var r := body.value;
      if r.authority !in authorities then (s, BadRequest)
      else
        var sde := if r.token in s.cache then s.cache[r.token] else DetokanizeSDE(r.token);
        (s, Ok(RedeemResponse(sde, r.token, env.requestId, if echoAuthority then r.authority else [])))
  }

  /** The globals of `main.go`: `localCache`, `authorityMap` and `collection`. */
  class MainDraft {
    var cache: map<GoString, GoString>
    var collection: seq<Record>
    const authorityMap: map<GoString, bool>

    function State(): VaultState
      reads this
    {
      VaultState(cache, collection)
    }

    predicate Valid()
      reads this
    {
      IsAuthorityMap(authorityMap) && Consistent(State())
    }

    /** `main` up to serving: a new cache, a new map hydrated in place, the collection. */
    constructor(records: seq<Record>)
      requires Tokenised(records)
      ensures Valid()
      ensures cache == map[] && collection == records
    {
      var table := new AuthorityTable();
      HydrateInto(table);
      authorityMap := table.entries;
      cache := map[];
      collection := records;
    }

    /** `getToken`: the create logic; the response's authority stays empty. */
    method GetToken(request: Request<TokenRequest>, env: Env) returns (reply: Reply<TokenResponse>)
      requires Valid()
      modifies this
      ensures Valid()
      ensures (State(), reply) == Create(old(State()), authorityMap, request.body, env, false)
    {
      ghost var s0 := State();
      if request.body.None? {
        return Fatal;
      }
      var tokenRequest := request.body.value;
      if tokenRequest.authority !in authorityMap {
        return BadRequest;
      }
      var tokenResponse := TokenResponse(tokenRequest.sde, [], [], []);
      if tokenRequest.sde in cache {
        tokenResponse := tokenResponse.(token := cache[tokenRequest.sde]);
      } else {
        var result := Lookup(collection, BySde(tokenRequest.sde), env.findFails);
        if result.Some? {
          tokenResponse := tokenResponse.(token := result.value.sde);
          cache := cache[tokenResponse.token := tokenRequest.sde];
          cache := cache[tokenRequest.sde := tokenResponse.token];
        } else {
          tokenResponse := tokenResponse.(token := TokanizeSDE(tokenRequest.sde));
          cache := cache[tokenResponse.token := tokenRequest.sde];
          cache := cache[tokenRequest.sde := tokenResponse.token];
          if env.insertFails {
            IssueConsistent(s0, tokenRequest.sde, env.findFails, env.insertFails);
            return Fatal;
          }
          collection := collection + [Record(tokenRequest.sde, tokenResponse.token)];
        }
      }
      tokenResponse := tokenResponse.(requestId := env.requestId);
      IssueConsistent(s0, tokenRequest.sde, env.findFails, env.insertFails);
      return Ok(tokenResponse);
    }

    /** `redeemToken` of `main.go`. */
    method RedeemToken(request: Request<RedeemRequest>, env: Env) returns (reply: Reply<RedeemResponse>)
      requires Valid()
      modifies this
      ensures Valid()
      ensures (State(), reply) == DecoderRedeem(old(State()), authorityMap, request.body, env, false)
    {
      if request.body.None? {
        return Fatal;
      }
      var redeemRequest := request.body.value;
      if redeemRequest.authority !in authorityMap {
        return BadRequest;
      }
      var redeemResponse := RedeemResponse([], [], [], []);
      if redeemRequest.token in cache {
        redeemResponse := redeemResponse.(sde := cache[redeemRequest.token]);
      } else {
        var redeemSDE := DetokanizeSDE(redeemRequest.token);
        redeemResponse := redeemResponse.(sde := redeemSDE);
      }
      redeemResponse := redeemResponse.(token := redeemRequest.token, requestId := env.requestId);
      return Ok(redeemResponse);
    }

    /** Cache entries expiring between requests: any set of keys may go. */
    method Expire(keys: set<GoString>)
      requires Valid()
      modifies this
      ensures Valid()
      ensures cache == old(cache) - keys && collection == old(collection)
    {
      cache := cache - keys;
    }
  }

  /** The globals `controllers.go` works on: its `localCache` and `collection`, and the
      `authorityMap` of `main.go`. */
  class ControllersDraft {
    var cache: map<GoString, GoString>
    var collection: seq<Record>
    const authorityMap: map<GoString, bool>

    function State(): VaultState
      reads this
    {
      VaultState(cache, collection)
    }

    predicate Valid()
      reads this
    {
      IsAuthorityMap(authorityMap) && Consistent(State())
    }

    constructor(records: seq<Record>)
      requires Tokenised(records)
      ensures Valid()
      ensures cache == map[] && collection == records
    {
      var table := new AuthorityTable();
      HydrateInto(table);
      authorityMap := table.entries;
      cache := map[];
      collection := records;
    }

    /** `createToken`: the create logic, echoing the request's authority and SDE. */
    method CreateToken(request: Request<TokenRequest>, env: Env) returns (reply: Reply<TokenResponse>)
      requires Valid()
      modifies this
      ensures Valid()
      ensures (State(), reply) == Create(old(State()), authorityMap, request.body, env, true)
    {
      ghost var s0 := State();
      if request.body.None? {
        return Fatal;
      }
      var tokenRequest := request.body.value;
      if tokenRequest.authority !in authorityMap {
        return BadRequest;
      }
      var tokenResponse := TokenResponse(tokenRequest.sde, [], [], tokenRequest.authority);
      if tokenRequest.sde in cache {
        tokenResponse := tokenResponse.(token := cache[tokenRequest.sde]);
      } else {
        var result := Lookup(collection, BySde(tokenRequest.sde), env.findFails);
        if result.Some? {
          tokenResponse := tokenResponse.(token := result.value.sde);
          cache := cache[tokenResponse.token := tokenRequest.sde];
          cache := cache[tokenRequest.sde := tokenResponse.token];
        } else {
          tokenResponse := tokenResponse.(token := TokanizeSDE(tokenRequest.sde));
          cache := cache[tokenResponse.token := tokenRequest.sde];
          cache := cache[tokenRequest.sde := tokenResponse.token];
          if env.insertFails {
            IssueConsistent(s0, tokenRequest.sde, env.findFails, env.insertFails);
            return Fatal;
          }
          collection := collection + [Record(tokenRequest.sde, tokenResponse.token)];
        }
      }
      tokenResponse := tokenResponse.(requestId := env.requestId);
      IssueConsistent(s0, tokenRequest.sde, env.findFails, env.insertFails);
      return Ok(tokenResponse);
    }

    /** `redeemToken` of `controllers.go`. */
    method RedeemToken(request: Request<RedeemRequest>, env: Env) returns (reply: Reply<RedeemResponse>)
      requires Valid()
      modifies this
      ensures Valid()
      ensures (State(), reply) == DecoderRedeem(old(State()), authorityMap, request.body, env, true)
    {
      if request.body.None? {
        return Fatal;
      }
      var redeemRequest := request.body.value;
      if redeemRequest.authority !in authorityMap {
        return BadRequest;
      }
      var redeemResponse := RedeemResponse([], [], [], redeemRequest.authority);
      if redeemRequest.token in cache {
        redeemResponse := redeemResponse.(sde := cache[redeemRequest.token]);
      } else {
        var redeemSDE := DetokanizeSDE(redeemRequest.token);
        redeemResponse := redeemResponse.(sde := redeemSDE);
      }
      redeemResponse := redeemResponse.(token := redeemRequest.token, requestId := env.requestId);
      return Ok(redeemResponse);
    }

    /** Cache entries expiring between requests: any set of keys may go. */
    method Expire(keys: set<GoString>)
      requires Valid()
      modifies this
      ensures Valid()
      ensures cache == old(cache) - keys && collection == old(collection)
    {
      cache := cache - keys;
    }
  }
}
