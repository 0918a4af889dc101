/**
 * `common/helpers.go`: the token transform (Base64 of the SDE), the authority whitelist and the
 * API-key check. `GetUUID` and `GetAPIKey` read randomness and the environment; the model takes
 * their results as parameters instead.
 */
module Helpers {
  import opened GoStrings
  import opened Base64
  import opened Base64Laws

  /** The four authority labels accepted by the handlers. */
  const Employee: GoString := Ascii("Employee")
  const Name: GoString := Ascii("Name")
  const CreditCard: GoString := Ascii("Credit_Card")
  const Address: GoString := Ascii("Address")

  const AuthorityLabels: set<GoString> := {Employee, Name, CreditCard, Address}

  /** A whitelist that maps exactly the four labels to `true`. */
  predicate IsAuthorityMap(m: map<GoString, bool>) {
    m.Keys == AuthorityLabels && forall k :: k in m ==> m[k]
  }

  /** `HydrateAuthorityMap`: a fresh map filled by four inserts. */
  method HydrateAuthorityMap() returns (authorityMap: map<GoString, bool>)
    ensures authorityMap.Keys == {Employee, Name, CreditCard, Address}
    ensures forall k :: k in authorityMap ==> authorityMap[k]
  {
    authorityMap := map[];
    authorityMap := authorityMap[Employee := true];
    authorityMap := authorityMap[Name := true];
    authorityMap := authorityMap[CreditCard := true];
    authorityMap := authorityMap[Address := true];
  }

  /** `TokanizeSDE`: the token of an SDE is its standard Base64 encoding. */
  function TokanizeSDE(sde: GoString): (token: GoString)
  {
    EncodeToString(sde)
  }

  /** `DetokanizeSDE`: the bytes decoded from the token; a decoding error is dropped and whatever
      was decoded before it is returned. */
  function DetokanizeSDE(token: GoString): (sde: GoString)
  {
    DecodeString(token).bytes
  }

  /** What `Header.Get` or `os.Getenv` yields: the value, or the empty string when absent. */
  function ValueOrEmpty(v: Option<GoString>): GoString {
    if v.Some? then v.value else []
  }

  /**
   * `IsValidAPIKey`: the `X-API-Key` header must equal the configured `FORTKNOX_API_KEY`, byte for
   * byte. An absent header and an unset variable both read as the empty string, so when no key is
   * configured a request without the header passes.
   */
  function IsValidAPIKey(header: Option<GoString>, configured: Option<GoString>): (ok: bool)
    ensures configured.Some? && configured.value != [] ==> (ok <==> header == configured)
    ensures ValueOrEmpty(configured) == [] ==> (ok <==> ValueOrEmpty(header) == [])
  {
    ValueOrEmpty(header) == ValueOrEmpty(configured)
  }

  /** With no key configured, a request without the header, or with an empty one, is admitted. */
  lemma UnsetKeyAdmitsBareRequests()
    ensures IsValidAPIKey(None, None)
    ensures IsValidAPIKey(Some([]), None)
    ensures IsValidAPIKey(None, Some([]))
  {
  }

  /** No normalisation: case and surrounding blanks count. */
  lemma KeyComparisonIsExact()
    ensures !IsValidAPIKey(Some(Ascii("Secret")), Some(Ascii("secret")))
    ensures !IsValidAPIKey(Some(Ascii("secret ")), Some(Ascii("secret")))
  {
    assert Ascii("Secret")[0] != Ascii("secret")[0];
    assert |Ascii("secret ")| != |Ascii("secret")|;
  }

  /** Redeeming the token of an SDE gives back that SDE, for every byte string. */
  lemma DetokanizeTokanize(sde: GoString)
    ensures DetokanizeSDE(TokanizeSDE(sde)) == sde
  {
    RoundTrip(sde);
  }

  /** Different SDEs never get the same token. */
  lemma TokanizeInjective(sde: GoString, sde': GoString)
    requires TokanizeSDE(sde) == TokanizeSDE(sde')
    ensures sde == sde'
  {
    EncodeInjective(sde, sde');
  }

  /** A token is four bytes per started group of three SDE bytes, alphabet bytes followed by the
      `=` padding only at the end. */
  lemma TokenShape(sde: GoString)
    ensures |TokanizeSDE(sde)| == 4 * ((|sde| + 2) / 3)
    ensures PaddedAlphabet(TokanizeSDE(sde), PadCount(|sde|))
  {
    EncodedLength(sde);
    EncodedShape(sde);
  }

  /** A non-empty SDE is never its own token: the token is strictly longer. */
  lemma TokenDiffersFromSde(sde: GoString)
    requires sde != []
    ensures |TokanizeSDE(sde)| > |sde|
    ensures TokanizeSDE(sde) != sde
  {
    EncodedLength(sde);
  }

  /** `DetokanizeSDE` is total: whatever follows a run of whole encoded groups, their bytes come out
      first, and the rest contributes what it decodes to (possibly nothing). */
  lemma DetokanizePrefix(p: GoString, t: GoString)
    requires |p| % 3 == 0
    ensures DetokanizeSDE(TokanizeSDE(p) + t) == p + DetokanizeSDE(t)
  {
    DecodeAfterGroups(p, t);
  }
}
