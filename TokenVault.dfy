/**
 * The state every variant of the vault works on: the in-memory cache (a go-cache instance used as
 * one string-to-string map for both directions) and the `tokenStore` collection, plus the create
 * logic the live handler and both drafts share: cache, then store, then a fresh token.
 */
module TokenVault {
  import opened GoStrings
  import opened Models
  import opened Helpers

  datatype VaultState = VaultState(cache: map<GoString, GoString>, collection: seq<Record>)

  /** The `bson.D` filters the handlers use: `{sde: …}` or `{token: …}`. */
  datatype Filter = BySde(sde: GoString) | ByToken(token: GoString)

  predicate Matches(r: Record, filter: Filter) {
    match filter
    case BySde(sde) => r.sde == sde
    case ByToken(token) => r.token == token
  }

  /** The position of the first record matching `filter`, or `|records|` when none does. */
  function FirstMatch(records: seq<Record>, filter: Filter): (i: nat)
    ensures i <= |records|
    ensures i < |records| ==> Matches(records[i], filter)
    ensures forall j :: 0 <= j < i ==> !Matches(records[j], filter)
  {
    if records == [] then 0
    else if Matches(records[0], filter) then 0
    else 1 + FirstMatch(records[1..], filter)
  }

  /**
   * `FindOne(filter).Decode(&result)`: a matching document, or `None` for the "no document" error.
   * Without a sort MongoDB does not say which match it returns; the model picks the first one in
   * the sequence. Under `Tokenised` every record matching a filter has the same SDE and token
   * (`MatchesAgree`), so the choice makes no difference to the handlers.
   */
  function FindOne(records: seq<Record>, filter: Filter): (found: Option<Record>)
    ensures found.None? <==> forall i :: 0 <= i < |records| ==> !Matches(records[i], filter)
    ensures found.Some? ==> found.value in records && Matches(found.value, filter)
  {
    var i := FirstMatch(records, filter);
    if i < |records| then Some(records[i]) else None
  }

  /** The lookup as the handlers see it: any error, "no document" or another, is a miss. */
  function Lookup(records: seq<Record>, filter: Filter, findFails: bool): (result: Option<Record>)
    ensures findFails ==> result.None?
    ensures result.Some? ==> result.value in records && Matches(result.value, filter)
    ensures !findFails && result.None? ==> forall r :: r in records ==> !Matches(r, filter)
  {
    if findFails then None else FindOne(records, filter)
  }

  /** `localCache.Set(a, b)` followed by `localCache.Set(b, a)`: one entry per direction, the
      second winning when `a == b`. */
  function CacheBoth(cache: map<GoString, GoString>, a: GoString, b: GoString): map<GoString, GoString> {
    cache[a := b][b := a]
  }

  /** A cache entry pairs a string with itself or with its token, in either direction. */
  predicate Related(key: GoString, value: GoString) {
    value == key || value == TokanizeSDE(key) || key == TokanizeSDE(value)
  }

  predicate CacheCoherent(cache: map<GoString, GoString>) {
    forall k :: k in cache ==> Related(k, cache[k])
  }

  /** Every stored record's token is the encoding of its SDE. */
  predicate Tokenised(records: seq<Record>) {
    forall i :: 0 <= i < |records| ==> records[i].token == TokanizeSDE(records[i].sde)
  }

  /** In a tokenised store, two records matching the same filter are the same record: a lookup by
      SDE fixes the token, and a lookup by token fixes the SDE because encoding is injective. */
  lemma MatchesAgree(records: seq<Record>, filter: Filter, r1: Record, r2: Record)
    requires Tokenised(records)
    requires r1 in records && r2 in records && Matches(r1, filter) && Matches(r2, filter)
    ensures r1 == r2
  {
    var i :| 0 <= i < |records| && records[i] == r1;
    var j :| 0 <= j < |records| && records[j] == r2;
    if filter.ByToken? {
      TokanizeInjective(r1.sde, r2.sde);
    }
  }

  /** No two stored records share an SDE. */
  predicate UniqueSdes(records: seq<Record>) {
    forall i, j :: 0 <= i < j < |records| ==> records[i].sde != records[j].sde
  }

  /** What the vault's state can be between requests. */
  predicate Consistent(s: VaultState) {
    CacheCoherent(s.cache) && Tokenised(s.collection)
  }

  /** The outcome of the create logic: a token and the new state, or a failed insert, which is
      fatal, and the state at that point. */
  datatype Issued = Issued(state: VaultState, token: GoString) | InsertFailed(state: VaultState)

  /**
   * The create logic after the gates: a cached value is returned as the token; otherwise the store
   * is searched by SDE and, on a hit, the record's SDE (not its token) becomes the token; otherwise
   * the SDE is tokenised, both directions are cached and only then the record is inserted.
   */
  function Issue(s: VaultState, sde: GoString, findFails: bool, insertFails: bool): Issued {
    if sde in s.cache then Issued(s, s.cache[sde])
    else
      var result := Lookup(s.collection, BySde(sde), findFails);
      if result.Some? then
        var token := result.value.sde;
        Issued(VaultState(CacheBoth(s.cache, token, sde), s.collection), token)
      else
        var token := TokanizeSDE(sde);
        var cache := CacheBoth(s.cache, token, sde);
        if insertFails then InsertFailed(VaultState(cache, s.collection))
        else Issued(VaultState(cache, s.collection + [Record(sde, token)]), token)
  }

  /**
   * A create request from the JSON decoding on: a body that does not decode is fatal, an authority
   * outside the whitelist is a bad request, and otherwise the response carries the request's SDE,
   * the issued token and the request id, and the request's authority when `echoAuthority` holds.
   */
  function Create(s: VaultState, authorities: map<GoString, bool>, body: Option<TokenRequest>, env: Env,
                  echoAuthority: bool): (VaultState, Reply<TokenResponse>)
  {
    if body.None? then (s, Fatal)
    else
      var req := body.value;
      if req.authority !in authorities then (s, BadRequest)
      else
        match Issue(s, req.sde, env.findFails, env.insertFails)
        case InsertFailed(s') => (s', Fatal)
        case Issued(s', token) =>
          (s', Ok(TokenResponse(req.sde, token, env.requestId, if echoAuthority then req.authority else [])))
  }

  /** Cache hit: the cached value, verbatim, whatever the store holds and however it would answer;
      nothing changes. */
  lemma IssueCacheHit(s: VaultState, sde: GoString, findFails: bool, insertFails: bool, collection: seq<Record>)
    requires sde in s.cache
    ensures Issue(s, sde, findFails, insertFails) == Issued(s, s.cache[sde])
    ensures Issue(VaultState(s.cache, collection), sde, false, false).token == s.cache[sde]
  {
  }

  /** Store hit: the token handed out is the SDE itself, and the cache maps the SDE to itself. */
  lemma IssueStoreHit(s: VaultState, sde: GoString, insertFails: bool)
    requires sde !in s.cache
    requires exists r :: r in s.collection && r.sde == sde
    ensures Issue(s, sde, false, insertFails)
            == Issued(VaultState(s.cache[sde := sde], s.collection), sde)
  {
    var r :| r in s.collection && r.sde == sde;
    var i :| 0 <= i < |s.collection| && s.collection[i] == r;
    assert Matches(s.collection[i], BySde(sde));
  }

  /** Store miss: the token is the encoding of the SDE, both directions are cached and the store
      gains exactly the record of the SDE and its token; a failed insert leaves the store as it was
      but the cache entries written. */
  lemma IssueStoreMiss(s: VaultState, sde: GoString, findFails: bool, insertFails: bool)
    requires sde !in s.cache
    requires findFails || forall r :: r in s.collection ==> r.sde != sde
    ensures var token := TokanizeSDE(sde);
      var cache := s.cache[token := sde][sde := token];
      Issue(s, sde, findFails, insertFails)
      == if insertFails then InsertFailed(VaultState(cache, s.collection))
         else Issued(VaultState(cache, s.collection + [Record(sde, token)]), token)
  {
    if !findFails {
      assert forall i :: 0 <= i < |s.collection| ==> !Matches(s.collection[i], BySde(sde)) by {
        forall i | 0 <= i < |s.collection| ensures !Matches(s.collection[i], BySde(sde)) {
          assert s.collection[i] in s.collection;
        }
      }
    }
  }

  lemma CacheBothCoherent(cache: map<GoString, GoString>, a: GoString, b: GoString)
    requires CacheCoherent(cache) && Related(a, b)
    ensures CacheCoherent(CacheBoth(cache, a, b))
  {
  }

  /** The create logic keeps the state consistent, and even a failed insert leaves a consistent
      cache behind. */
  lemma IssueConsistent(s: VaultState, sde: GoString, findFails: bool, insertFails: bool)
    requires Consistent(s)
    ensures Consistent(Issue(s, sde, findFails, insertFails).state)
  {
    if sde !in s.cache {
      var result := Lookup(s.collection, BySde(sde), findFails);
      if result.Some? {
        CacheBothCoherent(s.cache, result.value.sde, sde);
      } else {
        var token := TokanizeSDE(sde);
        CacheBothCoherent(s.cache, token, sde);
        assert forall i :: 0 <= i < |s.collection| ==> (s.collection + [Record(sde, token)])[i] == s.collection[i];
      }
    }
  }

  /**
   * The token handed out is always tied to the SDE: its encoding, the SDE itself (store hit), or,
   * because both directions share the cache, a string whose encoding is the SDE.
   */
  lemma IssuedTokenRelated(s: VaultState, sde: GoString, findFails: bool, insertFails: bool)
    requires Consistent(s)
    requires Issue(s, sde, findFails, insertFails).Issued?
    ensures var token := Issue(s, sde, findFails, insertFails).token;
      token == TokanizeSDE(sde) || token == sde || sde == TokanizeSDE(token)
  {
  }

  /** With lookups that do not fail, creating keeps at most one record per SDE: a record is
      inserted only after the search by its SDE came back empty. */
  lemma IssueKeepsSdesUnique(s: VaultState, sde: GoString, insertFails: bool)
    requires UniqueSdes(s.collection)
    ensures UniqueSdes(Issue(s, sde, false, insertFails).state.collection)
  {
    if sde !in s.cache && FindOne(s.collection, BySde(sde)).None? && !insertFails {
      var c := s.collection + [Record(sde, TokanizeSDE(sde))];
      forall i, j | 0 <= i < j < |c| ensures c[i].sde != c[j].sde {
        if j == |s.collection| {
          assert !Matches(s.collection[i], BySde(sde));
        }
      }
    }
  }

  /** A lookup error is taken for "no document", so two creates of the same SDE with the cache
      expired in between store it twice. */
  lemma LookupErrorDuplicates(sde: GoString)
    ensures var first := Issue(VaultState(map[], []), sde, false, false);
      var second := Issue(VaultState(map[], first.state.collection), sde, true, false);
      second.state.collection == [Record(sde, TokanizeSDE(sde)), Record(sde, TokanizeSDE(sde))]
      && !UniqueSdes(second.state.collection)
  {
    var first := Issue(VaultState(map[], []), sde, false, false);
    assert first.state.collection == [Record(sde, TokanizeSDE(sde))];
    var second := Issue(VaultState(map[], first.state.collection), sde, true, false);
    assert second.state.collection[0].sde == second.state.collection[1].sde;
  }
}
