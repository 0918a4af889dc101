/** What the root-package drafts guarantee, and how they differ from the live service. */
module DraftLaws {
  import opened GoStrings
  import opened Models
  import opened Helpers
  import opened TokenVault
  import opened Drafts
  import Base64Vectors

  /** `getToken` of `main.go` makes the same decisions and state changes as `createToken`, but its
      response never carries an authority. */
  lemma MainDraftOmitsAuthority(s: VaultState, authorities: map<GoString, bool>, body: Option<TokenRequest>, env: Env)
    ensures var (s1, r1) := Create(s, authorities, body, env, false);
      var (s2, r2) := Create(s, authorities, body, env, true);
      s1 == s2 && r1.Ok? == r2.Ok? && (r1.Ok? ==> r1.body == r2.body.(authority := []))
      && (!r1.Ok? ==> r1 == r2)
  {
  }

  /** A successful draft create echoes the request's SDE, and `controllers.go` its authority. */
  lemma DraftCreateEchoes(s: VaultState, authorities: map<GoString, bool>, body: Option<TokenRequest>, env: Env, echoAuthority: bool)
    requires Create(s, authorities, body, env, echoAuthority).1.Ok?
    ensures var resp := Create(s, authorities, body, env, echoAuthority).1.body;
      body.Some? && resp.sde == body.value.sde && resp.requestId == env.requestId
      && resp.authority == (if echoAuthority then body.value.authority else [])
  {
    if body.None? || body.value.authority !in authorities {
      assert false;
    }
    match Issue(s, body.value.sde, env.findFails, env.insertFails)
    case InsertFailed(_) =>
    case Issued(_, _) =>
  }

  /** The drafts' redeem never touches the store: the state is unchanged and the answer is the same
      whatever the collection holds and however it would fail. */
  lemma DecoderRedeemIgnoresStore(c: map<GoString, GoString>, col1: seq<Record>, col2: seq<Record>,
                                  authorities: map<GoString, bool>, body: Option<RedeemRequest>, env: Env,
                                  env': Env, echoAuthority: bool)
    requires env'.requestId == env.requestId
    ensures DecoderRedeem(VaultState(c, col1), authorities, body, env, echoAuthority).0 == VaultState(c, col1)
    ensures DecoderRedeem(VaultState(c, col1), authorities, body, env, echoAuthority).1
            == DecoderRedeem(VaultState(c, col2), authorities, body, env', echoAuthority).1
  {
  }

  /** Past the authority gate the drafts' redeem always succeeds, echoing the token and the request
      id, and the authority only in `controllers.go`; on a cache miss the SDE is the token's
      decoding, whatever the token. */
  lemma DecoderRedeemAlwaysOk(s: VaultState, authorities: map<GoString, bool>, r: RedeemRequest, env: Env, echoAuthority: bool)
    requires r.authority in authorities
    ensures var reply := DecoderRedeem(s, authorities, Some(r), env, echoAuthority).1;
      reply.Ok? && reply.body.token == r.token && reply.body.requestId == env.requestId
      && reply.body.authority == (if echoAuthority then r.authority else [])
      && (r.token !in s.cache ==> reply.body.sde == DetokanizeSDE(r.token))
      && (r.token in s.cache ==> reply.body.sde == s.cache[r.token])
  {
  }

  /** With nothing cached, redeeming the token of any SDE gives that SDE back. */
  lemma DecoderRedeemRoundTrip(collection: seq<Record>, authorities: map<GoString, bool>, sde: GoString,
                               authority: GoString, env: Env, echoAuthority: bool)
    requires authority in authorities
    ensures DecoderRedeem(VaultState(map[], collection), authorities, Some(RedeemRequest(TokanizeSDE(sde), authority)),
                          env, echoAuthority).1.body.sde == sde
  {
    DetokanizeTokanize(sde);
  }

  /** The drafts hand out SDEs that were never stored: with an empty vault, redeeming `Zm9v`
      answers `foo`. */
  lemma DecoderRedeemFabricates(authorities: map<GoString, bool>, env: Env, token: GoString)
    requires IsAuthorityMap(authorities) && token == Ascii("Zm9v")
    ensures DecoderRedeem(VaultState(map[], []), authorities, Some(RedeemRequest(token, Employee)), env, true).1
            == Ok(RedeemResponse(Ascii("foo"), token, env.requestId, Employee))
  {
    Base64Vectors.VectorFoo();
    DetokanizeTokanize(Ascii("foo"));
  }
}
