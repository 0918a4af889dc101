# fortknox-api token vault, modelled in Dafny

fortknox-api is a small HTTP service that turns a sensitive data element (SDE) into a token and
back. `CreateToken` takes an SDE and an authority label and returns a token. `RedeemToken` takes
a token and an authority label and returns the SDE. Both go through an API-key gate and an
authority gate. Then they consult an in-memory cache (go-cache, 5 s TTL) and a MongoDB
collection of `{sde, token}` records. A new token is the standard Base64 encoding of the SDE.

The model has these parts:

- **GoStrings.dfy**: Go strings as byte sequences, plus `Option`.
- **Base64.dfy**: Go's `encoding/base64.StdEncoding`.
  - The encoder follows the library's group-and-remainder code.
  - The decoder follows its `decodeQuantum` loop: `\r`/`\n` skipping, the padding rules, the
    trailing-garbage error that still keeps the padded quantum's bytes, and the non-strict
    handling of unused bits.
  - Laws: decoding inverts encoding, the encoded length and shape, and decoding after whole groups.
- **Base64Vectors.dfy**: the test vectors of section 10 of RFC 4648, and what the decoder does
  with malformed tokens.
- **Helpers.dfy** (`common/helpers.go`): `TokanizeSDE`, `DetokanizeSDE`, `HydrateAuthorityMap`
  and `IsValidAPIKey`.
- **Models.dfy** (`model/models.go`): the request, response and record types, and the `Reply`
  outcome of a handler. `Fatal` stands for `log.Fatalf`.
- **TokenVault.dfy**: the state (cache map and record sequence) and `FindOne`. It also holds the
  create logic that the live service and both drafts share:
  - `Issue`: cache, then store, then a fresh token.
  - `Create`: JSON decoding, the authority gate, then `Issue`.
- **Service.dfy** (`service/controllers.go`): class `Vault`, whose methods `CreateToken` and
  `RedeemToken` update `cache` and `collection` step by step, like the Go handlers. They are proved
  against the specification functions `CreateStep` and `RedeemStep`. `Expire` removes cache
  entries between requests.
- **ServiceLaws.dfy**: lemmas about the live handlers.
- **Drafts.dfy** (`main.go`, `controllers.go`): the root-package drafts, as classes `MainDraft` and
  `ControllersDraft`. They have no API-key gate. Their redeem (`DecoderRedeem`) never reads the
  store and decodes any token it is not cached for. Also here: `hydrateAuthorityMap`, filling a Go
  map in place.
- **DraftLaws.dfy**: lemmas about the drafts and how they relate to the live service.

The live `CreateToken` and the drafts' create handlers share one function, `Create`: a reading of
`service/controllers.go:31-98`, `controllers.go:54-120` and `main.go:102-173` finds the same
decisions and the same cache and store writes in all three. Only two things differ. The live
handler has an API-key gate in front (`CreateStep`), and `main.go` never fills in the response's
authority (the `echoAuthority` flag). This is a modelling decision, not a proved property.

The classes `Vault`, `MainDraft` and `ControllersDraft` keep the invariant `Valid()`:

- the authority map is exactly the four labels, all mapped to `true`;
- every stored record's token is the encoding of its SDE;
- every cache entry pairs a string with itself, or with its token in either direction.

The model reproduces these behaviours of the code rather than repairing them, and a lemma shows
each one:

- On a store hit, create returns the record's SDE as the token (`IssueStoreHit`). So a repeat
  create after the cache entries expire returns the SDE itself (`RepeatCreateAfterExpiry`).
- Both directions share one cache keyspace. An SDE that equals another SDE's token overwrites that
  SDE's entry (`SharedKeyspace`).
- On a cache hit, live redeem writes no body (`RedeemCacheHit`). So redeeming a token right after
  creating it gets an empty 200 (`RedeemRightAfterCreate`).
- Cache entries are written before the insert that may fail (`InsertFailureIsFatal`).
- A lookup error counts as "no document", so an SDE can be stored twice (`LookupErrorDuplicates`).

In three places the code falls short of what a token vault is evidently for, and of what its own
comments say. The model follows the code:

- An API-key check is evidently meant to refuse requests when no key is configured. The code
  compares the header with the variable, and both read as the empty string when absent. So with no
  key configured, a request without the header is admitted (`UnsetKeyAdmitsBareRequests`).
- The comment at `service/controllers.go:70` describes the store-hit branch as returning what was
  found, so a repeat create should give the stored token. The branch returns the record's SDE
  instead (`RepeatCreateAfterExpiry`).
- Redeem exists to return the SDE, and its store-hit branch does. Its cache-hit branch answers
  without a body, so redeeming right after a create gets nothing back (`RedeemRightAfterCreate`).

## Model

| member | source | states |
|---|---|---|
| Base64.DecodeMap | common/helpers.go:37 | a byte has a 6-bit value exactly when it is in the RFC 4648 alphabet, and encoding that value gives the byte back |
| Base64.EncodeSextet | common/helpers.go:25 | every 6-bit value encodes to an alphabet byte |
| Base64.EncodeToString | common/helpers.go:25 | computes `StdEncoding.EncodeToString`: 3-byte groups become 4 alphabet bytes, and a 1- or 2-byte tail becomes a padded quantum; its properties are RoundTrip, EncodedLength, EncodedShape and EncodeInjective |
| Base64.DecodeQuantum | common/helpers.go:37 | one `decodeQuantum` call: at most 3 bytes out, and bytes only after four input bytes are consumed (counting the values already collected) |
| Base64.DecodeString | common/helpers.go:37 | `StdEncoding.DecodeString`: quantum after quantum up to the first error, keeping the bytes decoded so far; never more than `DecodedLen` = three bytes per four whole input bytes |
| Base64Laws.QuantumOfGroup | common/helpers.go:37 | the four bytes encoding a group decode, as one quantum, to the group's three bytes, consuming exactly those four |
| Base64Laws.EncodeAppend | common/helpers.go:25 | encoding distributes over a split after a whole number of 3-byte groups |
| Base64Laws.DecodeAfterGroups | common/helpers.go:37 | decoding the encoding of whole groups followed by anything yields the groups' bytes followed by what the rest decodes to, with the rest's error status |
| Base64Laws.RoundTrip | common/helpers.go:23-39 | decoding the encoding of any byte string gives it back with no error |
| Base64Laws.EncodeInjective | common/helpers.go:23-27 | two byte strings with the same encoding are equal |
| Base64Laws.EncodedLength | common/helpers.go:25 | the encoding of n bytes has 4*((n+2)/3) bytes |
| Base64Laws.EncodedShape | common/helpers.go:25 | the encoding is alphabet bytes followed by exactly PadCount(n) `=` bytes, padding only at the end |
| Base64Vectors.VectorEmpty | common/helpers.go:25 | "" encodes to "" |
| Base64Vectors.VectorF | common/helpers.go:25 | "f" encodes to "Zg==" |
| Base64Vectors.VectorFo | common/helpers.go:25 | "fo" encodes to "Zm8=" |
| Base64Vectors.VectorFoo | common/helpers.go:25 | "foo" encodes to "Zm9v" |
| Base64Vectors.VectorFoob | common/helpers.go:25 | "foob" encodes to "Zm9vYg==" |
| Base64Vectors.VectorFooba | common/helpers.go:25 | "fooba" encodes to "Zm9vYmE=" |
| Base64Vectors.VectorFoobar | common/helpers.go:25 | "foobar" encodes to "Zm9vYmFy" |
| Base64Vectors.DecodeVectorF | common/helpers.go:37 | "Zg==" decodes to "f" with no error |
| Base64Vectors.DecodeVectorFo | common/helpers.go:37 | "Zm8=" decodes to "fo" with no error |
| Base64Vectors.DecodeVectorFoobar | common/helpers.go:37 | "Zm9vYmFy" decodes to "foobar" with no error |
| Base64Vectors.InvalidAfterGroup | common/helpers.go:37-38 | an invalid byte is an error, but the groups decoded before it are kept ("Zm9v!!!!" gives "foo") |
| Base64Vectors.GarbageAfterPadding | common/helpers.go:37-38 | bytes after the padding are an error, but the padded quantum's byte is kept ("Zg==x" gives "f") |
| Base64Vectors.NewlinesSkipped | common/helpers.go:37 | newlines inside a token are skipped ("Zg\n==" gives "f" with no error) |
| Base64Vectors.Truncated | common/helpers.go:37-38 | `Zg=`, cut inside its only quantum, decodes to nothing, with an error (whole groups before a cut are kept, as DecodeAfterGroups states) |
| Base64Vectors.NonCanonicalToken | common/helpers.go:37-38 | the decoder is not strict: "Zh==", which is not the token of "f", still decodes to "f" |
| Helpers.HydrateAuthorityMap | common/helpers.go:11-21 | the map's keys are exactly Employee, Name, Credit_Card and Address, each mapped to true |
| Helpers.IsValidAPIKey | common/helpers.go:47-53 | with a non-empty key configured, only that exact header value passes; with none (or an empty one), only an absent or empty header passes |
| Helpers.TokanizeSDE | common/helpers.go:23-27 | computes the SDE's standard Base64 encoding; its properties are DetokanizeTokanize, TokanizeInjective, TokenShape and TokenDiffersFromSde |
| Helpers.DetokanizeSDE | common/helpers.go:35-39 | computes the bytes DecodeString returns, with the error dropped; its properties are DetokanizeTokanize and DetokanizePrefix |
| Helpers.UnsetKeyAdmitsBareRequests | common/helpers.go:41-53 | an unset key and an absent header pass, as do any mix of absent and empty |
| Helpers.KeyComparisonIsExact | common/helpers.go:52 | no normalisation: case and trailing blanks make a key fail |
| Helpers.DetokanizeTokanize | common/helpers.go:23-39 | DetokanizeSDE(TokanizeSDE(s)) == s for every byte string |
| Helpers.TokanizeInjective | common/helpers.go:23-27 | different SDEs never get the same token |
| Helpers.TokenShape | common/helpers.go:23-27 | a token has 4*((n+2)/3) bytes, alphabet bytes then `=` padding only at the end |
| Helpers.TokenDiffersFromSde | common/helpers.go:23-27 | a non-empty SDE's token is strictly longer than it, so never equal to it |
| Helpers.DetokanizePrefix | common/helpers.go:35-39 | DetokanizeSDE is total and keeps the bytes of whole groups before anything malformed |
| TokenVault.FirstMatch | repository/db.go:40-48 | the position of the first record matching the filter, every record before it not matching |
| TokenVault.FindOne | repository/db.go:44 | no document exactly when no record matches; otherwise a stored record that matches |
| TokenVault.Lookup | repository/db.go:40-48 | `FindBy` as `service/controllers.go` uses it: a failing lookup finds nothing; a hit is a stored record matching the filter; without a failure, nothing is found only when no record matches |
| TokenVault.MatchesAgree | repository/db.go:44 | in a tokenised store two records matching the same filter are equal, so which match FindOne returns makes no difference |
| TokenVault.Issue | service/controllers.go:53-93 | computes the create logic after the gates: the cached value on a cache hit, else the record's SDE on a store hit with both cache writes, else TokanizeSDE(sde) with both cache writes and then the insert, or InsertFailed when it fails; its properties are the Issue lemmas below |
| TokenVault.Create | service/controllers.go:31-98 | computes the shared create handler after the API-key gate: Fatal for an undecodable body, BadRequest for an unknown authority, else Issue's outcome as a response echoing the SDE and request id |
| TokenVault.IssueCacheHit | service/controllers.go:53-59 | a cached SDE's value is the token, whatever the store holds and however its lookup would fail; nothing changes |
| TokenVault.IssueStoreHit | service/controllers.go:70-75 | on a store hit the token is the SDE itself, the cache maps the SDE to itself, the store is unchanged |
| TokenVault.IssueStoreMiss | service/controllers.go:76-89 | on a miss the token is TokanizeSDE(sde), both directions are cached, and the store gains exactly {sde, token}; a failed insert leaves the store as it was with the cache entries written |
| TokenVault.CacheBothCoherent | service/controllers.go:79-80 | caching a related pair in both directions keeps every cache entry related |
| TokenVault.IssueConsistent | service/controllers.go:53-93 | the create logic keeps every record tokenised and every cache entry related, even when the insert fails |
| TokenVault.IssuedTokenRelated | service/controllers.go:53-93 | the token issued is the SDE's encoding, the SDE itself, or a string whose encoding is the SDE |
| TokenVault.IssueKeepsSdesUnique | service/controllers.go:63-83 | with lookups that do not fail, at most one record per SDE is kept |
| TokenVault.LookupErrorDuplicates | service/controllers.go:66-83 | a lookup error is taken for "no document", so the same SDE can be stored twice |
| Service.CreateStep | service/controllers.go:22-99 | computes the live `CreateToken`: Unauthorized behind the API-key gate, else Create echoing the authority; its properties are in ServiceLaws |
| Service.RedeemStep | service/controllers.go:101-167 | computes the live `RedeemToken`: the three gates, then OkEmpty on a cache hit, NotFound on a store miss, and on a store hit the record's SDE with both cache writes; its properties are in ServiceLaws |
| Service.Vault.constructor | service/controllers.go:18-20 | the vault starts with an empty cache, the given tokenised records and the hydrated whitelist |
| Service.Vault.CreateToken | service/controllers.go:22-99 | keeps Valid; the new state and the reply are CreateStep of the old state |
| Service.Vault.RedeemToken | service/controllers.go:101-167 | keeps Valid; the new state and the reply are RedeemStep of the old state |
| Service.Vault.Expire | caches/cache.go:9-11 | expiry removes exactly the given keys from the cache, leaves the store alone and keeps Valid |
| Service.RedeemHitRelated | service/controllers.go:140-153 | the record a redeem finds pairs the token with the SDE it encodes |
| ServiceLaws.CreateGates | service/controllers.go:24-48 | a wrong key is Unauthorized, an undecodable body Fatal, an unknown authority BadRequest, each with the state unchanged |
| ServiceLaws.RedeemGates | service/controllers.go:103-127 | the same three gates, in the same order, for redeem |
| ServiceLaws.AuthorityGate | service/controllers.go:41-48 | past the key and decoding, create is BadRequest exactly when the authority is not one of the four labels |
| ServiceLaws.CreateCacheHit | service/controllers.go:53-59 | on a cache hit the response carries the cached value verbatim, with the request's SDE, authority and request id; nothing changes |
| ServiceLaws.CreateStoreHit | service/controllers.go:70-75 | on a store hit the response's token is the SDE and the cache gains sde→sde |
| ServiceLaws.CreateStoreMiss | service/controllers.go:76-92 | on a miss the token is TokanizeSDE(sde), the cache gains both directions, the store gains exactly {sde, token} |
| ServiceLaws.InsertFailureIsFatal | service/controllers.go:79-89 | a failed insert is Fatal with no response, the store unchanged, and both cache entries already written |
| ServiceLaws.RepeatCreateAfterExpiry | service/controllers.go:70-83 | the first create of an SDE gives its encoding; after the cache expires, the same create gives the SDE itself, a different token |
| ServiceLaws.RepeatCreateCached | service/controllers.go:53-92 | while the cache lives, a second create gives the same token and the store holds exactly one record |
| ServiceLaws.SharedKeyspace | service/controllers.go:74-80 | creating TokanizeSDE(x), then x, then TokanizeSDE(x) again returns x for the last, which is not its token |
| ServiceLaws.CreateConsistent | service/controllers.go:22-99 | every create keeps the state consistent |
| ServiceLaws.CreateKeepsSdesUnique | service/controllers.go:63-92 | with lookups that do not fail, creates never store an SDE twice |
| ServiceLaws.CreatedTokenRelated | service/controllers.go:50-98 | a successful create echoes the SDE, with a token that is its encoding, itself, or a string encoding to it |
| ServiceLaws.RedeemCacheHit | service/controllers.go:131-136 | a cached token gets status 200 with no body, and nothing changes |
| ServiceLaws.RedeemStoreMiss | service/controllers.go:140-159 | an unknown token is NotFound and nothing changes; no SDE is decoded |
| ServiceLaws.RedeemStoreHit | service/controllers.go:148-165 | a stored token gives the record's SDE with the request's token, caching both directions |
| ServiceLaws.RedeemNoFabrication | service/controllers.go:131-166 | every SDE a redeem returns comes from a stored record with that token |
| ServiceLaws.RedeemConsistent | service/controllers.go:131-166 | every redeem keeps the state consistent |
| ServiceLaws.RedeemRightAfterCreate | service/controllers.go:131-165 | redeeming a token right after its create gets an empty 200; once the cache has expired, the SDE comes back |
| Drafts.DecoderRedeem | main.go:188-229 | computes the drafts' `redeemToken`: Fatal, BadRequest, else always Ok with the cached SDE or the token's decoding, state unchanged; its properties are in DraftLaws |
| Drafts.AuthorityTable.constructor | main.go:27 | a new Go map is empty |
| Drafts.HydrateInto | main.go:51-57 | the four labels are set to true in the given map and every other entry is left as it was |
| Drafts.MainDraft.constructor | main.go:24-29 | the draft starts with an empty cache, the given records and a map hydrated in place |
| Drafts.MainDraft.GetToken | main.go:100-174 | keeps Valid; the new state and the reply are the shared create logic with no authority in the response |
| Drafts.MainDraft.RedeemToken | main.go:188-229 | keeps Valid; state unchanged, and the reply is DecoderRedeem with no authority in the response |
| Drafts.MainDraft.Expire | main.go:26 | expiry removes exactly the given keys and leaves the collection alone |
| Drafts.ControllersDraft.constructor | controllers.go:49-50 | the draft starts with an empty cache, the given records and the hydrated map |
| Drafts.ControllersDraft.CreateToken | controllers.go:52-121 | keeps Valid; the new state and the reply are the shared create logic, echoing the authority |
| Drafts.ControllersDraft.RedeemToken | controllers.go:135-176 | keeps Valid; state unchanged, and the reply is DecoderRedeem echoing the authority |
| Drafts.ControllersDraft.Expire | cache.go:9-11 | expiry removes exactly the given keys and leaves the collection alone |
| DraftLaws.MainDraftOmitsAuthority | main.go:121-173 | getToken makes the same decisions and state changes as createToken, but its response's authority is empty |
| DraftLaws.DraftCreateEchoes | controllers.go:73-74 | a successful draft create echoes the SDE and request id, and the authority only in controllers.go |
| DraftLaws.DecoderRedeemIgnoresStore | main.go:211-228 | the drafts' redeem changes nothing, and its answer does not depend on the collection or on store failures |
| DraftLaws.DecoderRedeemAlwaysOk | controllers.go:156-175 | past the authority gate the drafts' redeem always succeeds, echoing the token and request id, and the request's authority only in controllers.go (main.go leaves it empty); the SDE is the cached one or else the token's decoding |
| DraftLaws.DecoderRedeemRoundTrip | main.go:218-222 | with nothing cached, redeeming TokanizeSDE(s) gives s back |
| DraftLaws.DecoderRedeemFabricates | controllers.go:165-169 | with an empty vault, redeeming "Zm9v" answers "foo", an SDE that was never stored |

## Left out

- MongoDB connection and ping (`repository/db.go:19-39`, `db.go`, `main.go:33-49`): I/O. The collection is a sequence of records handed to the constructors.
- `FindBy`'s goroutine and one-shot channel: concurrency plumbing. The lookup is a synchronous first-match search. Errors other than "no document" are the `findFails` input.
- go-cache's wall-clock TTLs (`caches/cache.go`, `cache.go`): expiry is `Expire`, which removes any set of keys between requests, never during one.
- `GetUUID` / `getUUID`: randomness. The request id is an input.
- `GetAPIKey`: reads the environment. The configured key is an input.
- JSON encoding and decoding, status writes and logging are not modelled. A body that does not decode is `None`, and the outcome is a `Reply` value.
- `handleRequests`, `main`'s `ListenAndServe` and the HTTP server are not modelled.
- What follows a `Fatal` is not modelled. In the program `log.Fatalf` ends the process, so the in-memory cache is lost and the `panic` after it never runs. The model stops at that point and keeps the state as it was then.
- Concurrent requests and their races are not modelled. Requests are handled one at a time.
- `Service.Vault.constructor`, `Drafts.MainDraft.constructor` and `Drafts.ControllersDraft.constructor` require the records they start from to be tokenised. The Go programs accept whatever the `tokenStore` collection holds, so `Valid()` is an invariant only for a collection whose records were all written by these handlers.
- `CacheRequest` is declared but used by no handler.
- The type assertions `token.(string)` and `sde.(string)` are not modelled. The cache only ever holds strings, so they cannot fail.
