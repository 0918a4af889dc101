/** What the live handlers of `service/controllers.go` guarantee, and the defects they carry. */
module ServiceLaws {
  import opened GoStrings
  import opened Models
  import opened Helpers
  import opened TokenVault
  import opened Service

  /** A request that passes both gates and decodes. */
  predicate Admitted<B>(req: Request<B>, env: Env) {
    IsValidAPIKey(req.apiKeyHeader, env.apiKey) && req.body.Some?
  }

  /** The gates come first and change nothing: a wrong key is `Unauthorized`, an undecodable body
      `Fatal` and an unknown authority `BadRequest`, whatever the cache and the store hold. */
  lemma CreateGates(s: VaultState, authorities: map<GoString, bool>, req: Request<TokenRequest>, env: Env)
    ensures !IsValidAPIKey(req.apiKeyHeader, env.apiKey) ==> CreateStep(s, authorities, req, env) == (s, Unauthorized)
    ensures IsValidAPIKey(req.apiKeyHeader, env.apiKey) && req.body.None? ==> CreateStep(s, authorities, req, env) == (s, Fatal)
    ensures Admitted(req, env) && req.body.value.authority !in authorities
            ==> CreateStep(s, authorities, req, env) == (s, BadRequest)
  {
  }

  lemma RedeemGates(s: VaultState, authorities: map<GoString, bool>, req: Request<RedeemRequest>, env: Env)
    ensures !IsValidAPIKey(req.apiKeyHeader, env.apiKey) ==> RedeemStep(s, authorities, req, env) == (s, Unauthorized)
    ensures IsValidAPIKey(req.apiKeyHeader, env.apiKey) && req.body.None? ==> RedeemStep(s, authorities, req, env) == (s, Fatal)
    ensures Admitted(req, env) && req.body.value.authority !in authorities
            ==> RedeemStep(s, authorities, req, env) == (s, BadRequest)
  {
  }

  /** Only a listed authority gets past the authority gate. */
  lemma AuthorityGate(s: VaultState, authorities: map<GoString, bool>, req: Request<TokenRequest>, env: Env)
    requires IsAuthorityMap(authorities)
    requires Admitted(req, env)
    ensures CreateStep(s, authorities, req, env).1 == BadRequest <==> req.body.value.authority !in AuthorityLabels
  {
    match Issue(s, req.body.value.sde, env.findFails, env.insertFails)
    case InsertFailed(_) =>
    case Issued(_, _) =>
  }

  /** Create on a cache hit: the cached value is the token, the store is not consulted (its
      contents and its failures make no difference) and nothing changes. */
  lemma CreateCacheHit(s: VaultState, authorities: map<GoString, bool>, req: Request<TokenRequest>, env: Env)
    requires Admitted(req, env) && req.body.value.authority in authorities
    requires req.body.value.sde in s.cache
    ensures var r := req.body.value;
      CreateStep(s, authorities, req, env)
      == (s, Ok(TokenResponse(r.sde, s.cache[r.sde], env.requestId, r.authority)))
  {
  }

  /** Create on a store hit: the SDE itself comes back as the token and is cached as its own
      partner; the store is unchanged. */
  lemma CreateStoreHit(s: VaultState, authorities: map<GoString, bool>, req: Request<TokenRequest>, env: Env)
    requires Admitted(req, env) && req.body.value.authority in authorities && !env.findFails
    requires req.body.value.sde !in s.cache
    requires exists rec :: rec in s.collection && rec.sde == req.body.value.sde
    ensures var r := req.body.value;
      CreateStep(s, authorities, req, env)
      == (VaultState(s.cache[r.sde := r.sde], s.collection), Ok(TokenResponse(r.sde, r.sde, env.requestId, r.authority)))
  {
    IssueStoreHit(s, req.body.value.sde, env.insertFails);
  }

  /** Create on a store miss: the token is the SDE's encoding, both directions are cached and the
      store gains exactly one record, the SDE with its token. */
  lemma CreateStoreMiss(s: VaultState, authorities: map<GoString, bool>, req: Request<TokenRequest>, env: Env)
    requires Admitted(req, env) && req.body.value.authority in authorities && !env.insertFails
    requires req.body.value.sde !in s.cache
    requires env.findFails || forall rec :: rec in s.collection ==> rec.sde != req.body.value.sde
    ensures var r := req.body.value;
      var token := TokanizeSDE(r.sde);
      CreateStep(s, authorities, req, env)
      == (VaultState(s.cache[token := r.sde][r.sde := token], s.collection + [Record(r.sde, token)]),
          Ok(TokenResponse(r.sde, token, env.requestId, r.authority)))
  {
    IssueStoreMiss(s, req.body.value.sde, env.findFails, env.insertFails);
  }

  /** A failed insert is fatal: no response, the store unchanged, but both cache entries already
      written. */
  lemma InsertFailureIsFatal(s: VaultState, authorities: map<GoString, bool>, req: Request<TokenRequest>, env: Env)
    requires Admitted(req, env) && req.body.value.authority in authorities && env.insertFails
    requires req.body.value.sde !in s.cache
    requires env.findFails || forall rec :: rec in s.collection ==> rec.sde != req.body.value.sde
    ensures var r := req.body.value;
      var token := TokanizeSDE(r.sde);
      CreateStep(s, authorities, req, env)
      == (VaultState(s.cache[token := r.sde][r.sde := token], s.collection), Fatal)
  {
    IssueStoreMiss(s, req.body.value.sde, env.findFails, env.insertFails);
  }

  /** A request for `sde` with a listed authority and no failures. */
  function PlainCreate(sde: GoString): Request<TokenRequest> {
    Request(None, Some(TokenRequest(sde, Employee)))
  }

  function PlainEnv(requestId: GoString): Env {
    Env(None, false, false, requestId)
  }

  /**
   * Creating an SDE for the first time gives its encoding; once the cache entries have expired,
   * creating it again finds the stored record and gives the SDE itself, a different token.
   */
  lemma RepeatCreateAfterExpiry(authorities: map<GoString, bool>, records: seq<Record>, sde: GoString, id1: GoString, id2: GoString)
    requires IsAuthorityMap(authorities)
    requires sde != [] && forall rec :: rec in records ==> rec.sde != sde
    ensures var (s1, first) := CreateStep(VaultState(map[], records), authorities, PlainCreate(sde), PlainEnv(id1));
      var (s2, second) := CreateStep(VaultState(map[], s1.collection), authorities, PlainCreate(sde), PlainEnv(id2));
      && first == Ok(TokenResponse(sde, TokanizeSDE(sde), id1, Employee))
      && second == Ok(TokenResponse(sde, sde, id2, Employee))
      && second.body.token != first.body.token
  {
    var s0 := VaultState(map[], records);
    CreateStoreMiss(s0, authorities, PlainCreate(sde), PlainEnv(id1));
    var s1 := CreateStep(s0, authorities, PlainCreate(sde), PlainEnv(id1)).0;
    assert Record(sde, TokanizeSDE(sde)) in s1.collection;
    CreateStoreHit(VaultState(map[], s1.collection), authorities, PlainCreate(sde), PlainEnv(id2));
    TokenDiffersFromSde(sde);
  }

  /**
   * Both directions share one cache. Let `y` be the token of `x`: creating `y` and then `x` makes
   * `x` overwrite `y`'s entry, so creating `y` again returns `x`, which is neither `y`'s token nor
   * anything the store holds for `y`.
   */
  lemma SharedKeyspace(authorities: map<GoString, bool>, x: GoString, id1: GoString, id2: GoString, id3: GoString)
    requires IsAuthorityMap(authorities) && x != []
    ensures var y := TokanizeSDE(x);
      var (s1, r1) := CreateStep(VaultState(map[], []), authorities, PlainCreate(y), PlainEnv(id1));
      var (s2, r2) := CreateStep(s1, authorities, PlainCreate(x), PlainEnv(id2));
      var (s3, r3) := CreateStep(s2, authorities, PlainCreate(y), PlainEnv(id3));
      && r1 == Ok(TokenResponse(y, TokanizeSDE(y), id1, Employee))
      && r2 == Ok(TokenResponse(x, y, id2, Employee))
      && r3 == Ok(TokenResponse(y, x, id3, Employee))
      && x != TokanizeSDE(y)
  {
    var y := TokanizeSDE(x);
    var z := TokanizeSDE(y);
    TokenDiffersFromSde(x);
    TokenDiffersFromSde(y);
    var s0 := VaultState(map[], []);
    CreateStoreMiss(s0, authorities, PlainCreate(y), PlainEnv(id1));
    var s1 := VaultState(map[z := y][y := z], [Record(y, z)]);
    assert x !in s1.cache;
    CreateStoreMiss(s1, authorities, PlainCreate(x), PlainEnv(id2));
    var s2 := VaultState(s1.cache[y := x][x := y], s1.collection + [Record(x, y)]);
    assert s2.cache[y] == x;
    CreateCacheHit(s2, authorities, PlainCreate(y), PlainEnv(id3));
  }

  /** Every create keeps the state consistent. */
  lemma CreateConsistent(s: VaultState, authorities: map<GoString, bool>, req: Request<TokenRequest>, env: Env)
    requires Consistent(s)
    ensures Consistent(CreateStep(s, authorities, req, env).0)
  {
    if Admitted(req, env) && req.body.value.authority in authorities {
      IssueConsistent(s, req.body.value.sde, env.findFails, env.insertFails);
    }
  }

  /** With lookups that do not fail, creates never store an SDE twice. */
  lemma CreateKeepsSdesUnique(s: VaultState, authorities: map<GoString, bool>, req: Request<TokenRequest>, env: Env)
    requires UniqueSdes(s.collection) && !env.findFails
    ensures UniqueSdes(CreateStep(s, authorities, req, env).0.collection)
  {
    if Admitted(req, env) && req.body.value.authority in authorities {
      IssueKeepsSdesUnique(s, req.body.value.sde, env.insertFails);
    }
  }

  /** The token a create returns is tied to the SDE it was asked for. */
  lemma CreatedTokenRelated(s: VaultState, authorities: map<GoString, bool>, req: Request<TokenRequest>, env: Env)
    requires Consistent(s)
    requires CreateStep(s, authorities, req, env).1.Ok?
    ensures var resp := CreateStep(s, authorities, req, env).1.body;
      resp.sde == req.body.value.sde
      && (resp.token == TokanizeSDE(resp.sde) || resp.token == resp.sde || resp.sde == TokanizeSDE(resp.token))
  {
    if !Admitted(req, env) || req.body.value.authority !in authorities {
      assert false;
    }
    IssuedTokenRelated(s, req.body.value.sde, env.findFails, env.insertFails);
  }

  /** Redeem on a cache hit answers with status 200 and no body, and changes nothing. */
  lemma RedeemCacheHit(s: VaultState, authorities: map<GoString, bool>, req: Request<RedeemRequest>, env: Env)
    requires Admitted(req, env) && req.body.value.authority in authorities
    requires req.body.value.token in s.cache
    ensures RedeemStep(s, authorities, req, env) == (s, OkEmpty)
  {
  }

  /** Redeem on a store miss is `NotFound` and changes nothing; no SDE is made up by decoding. */
  lemma RedeemStoreMiss(s: VaultState, authorities: map<GoString, bool>, req: Request<RedeemRequest>, env: Env)
    requires Admitted(req, env) && req.body.value.authority in authorities
    requires req.body.value.token !in s.cache
    requires env.findFails || forall rec :: rec in s.collection ==> rec.token != req.body.value.token
    ensures RedeemStep(s, authorities, req, env) == (s, NotFound)
  {
    if !env.findFails {
      forall i | 0 <= i < |s.collection| ensures !Matches(s.collection[i], ByToken(req.body.value.token)) {
        assert s.collection[i] in s.collection;
      }
    }
  }

  /** Redeem on a store hit: the record's SDE with the request's token, cached both ways; in a
      consistent vault that SDE is exactly the one the token encodes. */
  lemma RedeemStoreHit(s: VaultState, authorities: map<GoString, bool>, req: Request<RedeemRequest>, env: Env, rec: Record)
    requires Consistent(s)
    requires Admitted(req, env) && req.body.value.authority in authorities && !env.findFails
    requires req.body.value.token !in s.cache
    requires rec in s.collection && rec.token == req.body.value.token
    ensures var r := req.body.value;
      RedeemStep(s, authorities, req, env)
      == (VaultState(s.cache[r.token := rec.sde][rec.sde := r.token], s.collection),
          Ok(RedeemResponse(rec.sde, r.token, env.requestId, r.authority)))
  {
    var token := req.body.value.token;
    var i :| 0 <= i < |s.collection| && s.collection[i] == rec;
    assert Matches(s.collection[i], ByToken(token));
    var found := FindOne(s.collection, ByToken(token)).value;
    var j :| 0 <= j < |s.collection| && s.collection[j] == found;
    assert found.token == token;
    TokanizeInjective(found.sde, rec.sde);
  }

  /** Whatever a redeem answers with is a record of the store: redeem never invents an SDE. */
  lemma RedeemNoFabrication(s: VaultState, authorities: map<GoString, bool>, req: Request<RedeemRequest>, env: Env)
    requires RedeemStep(s, authorities, req, env).1.Ok?
    ensures var resp := RedeemStep(s, authorities, req, env).1.body;
      Record(resp.sde, resp.token) in s.collection && resp.token == req.body.value.token
  {
    if !Admitted(req, env) || req.body.value.authority !in authorities || req.body.value.token in s.cache {
      assert false;
    }
  }

  /** Every redeem keeps the state consistent. */
  lemma RedeemConsistent(s: VaultState, authorities: map<GoString, bool>, req: Request<RedeemRequest>, env: Env)
    requires Consistent(s)
    ensures Consistent(RedeemStep(s, authorities, req, env).0)
  {
    if Admitted(req, env) && req.body.value.authority in authorities && req.body.value.token !in s.cache {
      var result := Lookup(s.collection, ByToken(req.body.value.token), env.findFails);
      if result.Some? {
        RedeemHitRelated(s.collection, req.body.value.token, env.findFails);
        CacheBothCoherent(s.cache, req.body.value.token, result.value.sde);
      }
    }
  }

  function PlainRedeem(token: GoString): Request<RedeemRequest> {
    Request(None, Some(RedeemRequest(token, Employee)))
  }

  /** While the cache entries live, creating the same SDE twice gives the same token, and the store
      holds exactly one record for it. */
  lemma RepeatCreateCached(authorities: map<GoString, bool>, sde: GoString, id1: GoString, id2: GoString)
    requires IsAuthorityMap(authorities)
    ensures var (s1, first) := CreateStep(VaultState(map[], []), authorities, PlainCreate(sde), PlainEnv(id1));
      var (s2, second) := CreateStep(s1, authorities, PlainCreate(sde), PlainEnv(id2));
      && first == Ok(TokenResponse(sde, TokanizeSDE(sde), id1, Employee))
      && second == Ok(TokenResponse(sde, TokanizeSDE(sde), id2, Employee))
      && s2.collection == [Record(sde, TokanizeSDE(sde))]
  {
    var s0 := VaultState(map[], []);
    CreateStoreMiss(s0, authorities, PlainCreate(sde), PlainEnv(id1));
    var t := TokanizeSDE(sde);
    var s1 := VaultState(map[t := sde][sde := t], [Record(sde, t)]);
    CreateCacheHit(s1, authorities, PlainCreate(sde), PlainEnv(id2));
  }

  /**
   * Redeeming a token right after creating it hits the cache entry the create wrote, so the answer
   * has no body; only once that entry has expired does redeem answer with the SDE and the token.
   */
  lemma RedeemRightAfterCreate(authorities: map<GoString, bool>, sde: GoString, id1: GoString, id2: GoString)
    requires IsAuthorityMap(authorities)
    ensures var t := TokanizeSDE(sde);
      var (s1, _) := CreateStep(VaultState(map[], []), authorities, PlainCreate(sde), PlainEnv(id1));
      && RedeemStep(s1, authorities, PlainRedeem(t), PlainEnv(id2)).1 == OkEmpty
      && RedeemStep(VaultState(map[], s1.collection), authorities, PlainRedeem(t), PlainEnv(id2)).1
         == Ok(RedeemResponse(sde, t, id2, Employee))
  {
    var s0 := VaultState(map[], []);
    CreateStoreMiss(s0, authorities, PlainCreate(sde), PlainEnv(id1));
    var t := TokanizeSDE(sde);
    var s1 := VaultState(map[t := sde][sde := t], [Record(sde, t)]);
    RedeemCacheHit(s1, authorities, PlainRedeem(t), PlainEnv(id2));
    RedeemStoreHit(VaultState(map[], s1.collection), authorities, PlainRedeem(t), PlainEnv(id2), Record(sde, t));
  }
}
