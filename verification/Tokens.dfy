/** The signed tokens of the identity provider and the two places that accept them: the resource
    server's verifier and the continuation of a login flow.  A signature is ideal: a token names the
    key that signed it. */
module Tokens {
  import opened Decimal

  const ACCESS_TTL: nat := 15 * 60 * 1000 // milliseconds
  const FLOW_TTL: nat := 10 * 60 * 1000

  // The registered claims that are checked, and the private ones; None is an absent claim.
  datatype Claims = Claims(
    iss: Option<string>, sub: Option<string>, aud: Option<string>, exp: Option<int>,
    purpose: Option<string>, status: Option<string>, nickname: Option<string>)

  // What a caller can present: anything, or a token with its header, signer and claims.
  datatype Presented = Garbage | Jwt(alg: string, kid: string, signer: nat, claims: Claims)

  datatype Issuer = Issuer(key: nat, kid: string, issuer: string) {

    function Sign(claims: Claims): Presented {
      Jwt("RS256", kid, key, claims)
    }

    /** `now` in milliseconds; exp is in whole seconds. */
    function AccessToken(now: nat, userID: int, status: string): Presented {
      Sign(Claims(Some(issuer), Some(Format(userID)), Some("board"), Some((now + ACCESS_TTL) / 1000),
                  None, Some(status), None))
    }

    function IDToken(now: nat, userID: int, nickname: string): Presented {
      Sign(Claims(Some(issuer), Some(Format(userID)), Some("poc-frontend"), Some((now + ACCESS_TTL) / 1000),
                  None, None, Some(nickname)))
    }

    function FlowToken(now: nat, purpose: string, subject: string): Presented {
      Sign(Claims(Some(issuer), Some(subject), Some("flow"), Some((now + FLOW_TTL) / 1000),
                  Some(purpose), None, None))
    }

    /** The subject of a flow token of the wanted purpose. */
    function VerifyFlowToken(now: nat, tok: Presented, wantPurpose: string): Option<string> {
      if tok.Garbage? || tok.alg != "RS256" || tok.signer != key || !ClaimsHold(tok.claims, now, issuer, "flow") then None
      else if tok.claims.purpose != Some(wantPurpose) then None
      else if tok.claims.sub == None || tok.claims.sub == Some("") then None
      else tok.claims.sub
    }

    /** flowUserID: the subject of such a token, as a user id. */
    function FlowUserID(now: nat, tok: Presented, purpose: string): Option<int> {
      match VerifyFlowToken(now, tok, purpose)
      case None => None
      case Some(sub) => ParseInt(sub)
    }
  }

  /** WithIssuer, WithAudience and WithExpirationRequired of the JWT library. */
  predicate ClaimsHold(c: Claims, now: nat, issuer: string, audience: string) {
    && c.iss == Some(issuer)
    && c.aud == Some(audience)
    && c.exp.Some? && now < c.exp.value * 1000
  }

  datatype Verdict = Verified(subject: string, status: string) | UnknownKey | InvalidToken

  /** Verifier.Verify, with `keys` what keyFor finds for a kid. */
  function Verify(keys: map<string, nat>, issuer: string, audience: string, now: nat, tok: Presented): Verdict {
    if tok.Garbage? || tok.alg != "RS256" then InvalidToken
    else if tok.kid == "" || tok.kid !in keys then UnknownKey
    else if tok.signer != keys[tok.kid] || !ClaimsHold(tok.claims, now, issuer, audience) then InvalidToken
    else match tok.claims.sub
      case None => InvalidToken
      case Some(sub) =>
        if sub == "" then InvalidToken
        else Verified(sub, match tok.claims.status case None => "" case Some(s) => s)
  }

  // The tokens that an issuer hands out.
  datatype Class =
    | Access(userID: int, status: string)
    | Identity(userID: int, nickname: string)
    | Flow(purpose: string, subject: string)

  function Mint(i: Issuer, now: nat, class_: Class): Presented {
    match class_
    case Access(userID, status) => i.AccessToken(now, userID, status)
    case Identity(userID, nickname) => i.IDToken(now, userID, nickname)
    case Flow(purpose, subject) => i.FlowToken(now, purpose, subject)
  }

  function AudienceOf(class_: Class): string {
    match class_
    case Access(_, _) => "board"
    case Identity(_, _) => "poc-frontend"
    case Flow(_, _) => "flow"
  }

  function SubjectOf(class_: Class): string {
    match class_
    case Access(userID, _) => Format(userID)
    case Identity(userID, _) => Format(userID)
    case Flow(_, subject) => subject
  }

  /** The whole second in which a token minted at `minted` ends, in milliseconds. */
  function EndOf(minted: nat, class_: Class): nat {
    ((minted + if class_.Flow? then FLOW_TTL else ACCESS_TTL) / 1000) * 1000
  }

  lemma FormatIsNotEmpty(n: int)
    ensures Format(n) != ""
  {
    DigitsAreRead(if n < 0 then -n else n);
  }

  lemma AudiencesDiffer()
    ensures "board" != "poc-frontend" && "board" != "flow" && "poc-frontend" != "flow"
  {
    assert |"board"| != |"poc-frontend"| && |"board"| != |"flow"|;
  }

  /** Exactly when a resource server accepts a token of the issuer: the key is the published one, the
      issuer and audience are the token's, the token has not ended, and its subject is not empty. */
  lemma VerifyAccepts(i: Issuer, keys: map<string, nat>, issuer: string, audience: string, minted: nat, now: nat, class_: Class)
    ensures Verify(keys, issuer, audience, now, Mint(i, minted, class_)).Verified? <==>
              && i.kid != "" && i.kid in keys && keys[i.kid] == i.key
              && issuer == i.issuer && audience == AudienceOf(class_)
              && now < ((minted + if class_.Flow? then 600_000 else 900_000) / 1000) * 1000
              && SubjectOf(class_) != ""
  {
  }

  /** Whatever is presented, and whoever made it: a resource server accepts only what the key published under
      its kid signed for it, and reads nothing that was not signed. */
  lemma OnlySignedIsAccepted(keys: map<string, nat>, issuer: string, audience: string, now: nat, tok: Presented)
    ensures var v := Verify(keys, issuer, audience, now, tok);
            && (v.Verified? ==>
                  && tok.Jwt? && tok.alg == "RS256" && tok.kid in keys && tok.signer == keys[tok.kid]
                  && tok.claims.iss == Some(issuer) && tok.claims.aud == Some(audience)
                  && tok.claims.exp.Some? && now < tok.claims.exp.value * 1000
                  && tok.claims.sub == Some(v.subject) && v.subject != ""
                  && (tok.claims.status == Some(v.status) || (tok.claims.status == None && v.status == "")))
            && (v == UnknownKey <==> tok.Jwt? && tok.alg == "RS256" && (tok.kid == "" || tok.kid !in keys))
  {
  }

  /** And a login flow continues only with what the issuer signed for that flow. */
  lemma OnlySignedContinues(i: Issuer, now: nat, tok: Presented, purpose: string)
    ensures var sub := i.VerifyFlowToken(now, tok, purpose);
            sub.Some? ==>
              && tok.Jwt? && tok.alg == "RS256" && tok.signer == i.key
              && tok.claims.iss == Some(i.issuer) && tok.claims.aud == Some("flow") && tok.claims.purpose == Some(purpose)
              && tok.claims.exp.Some? && now < tok.claims.exp.value * 1000
              && tok.claims.sub == sub && sub != Some("")
  {
  }

  /** The board accepts access tokens alone, and reads from them exactly the user id and status. */
  lemma BoardAcceptsAccessOnly(i: Issuer, keys: map<string, nat>, minted: nat, now: nat, class_: Class)
    requires i.kid != "" && i.kid in keys && keys[i.kid] == i.key
    ensures var v := Verify(keys, i.issuer, "board", now, Mint(i, minted, class_));
            && (v.Verified? <==> class_.Access? && now < EndOf(minted, class_))
            && (v.Verified? ==> v == Verified(Format(class_.userID), class_.status))
            && (v.Verified? && IsInt64(class_.userID) ==> ParseInt(v.subject) == Some(class_.userID))
  {
    VerifyAccepts(i, keys, i.issuer, "board", minted, now, class_);
    AudiencesDiffer();
    if class_.Access? {
      FormatIsNotEmpty(class_.userID);
      if IsInt64(class_.userID) {
        ParseFormat(class_.userID);
      }
    }
  }

  /** A login flow continues with a flow token of its own purpose alone, and gets its subject. */
  lemma FlowAcceptsItsPurposeOnly(i: Issuer, minted: nat, now: nat, class_: Class, purpose: string)
    ensures var sub := i.VerifyFlowToken(now, Mint(i, minted, class_), purpose);
            && (sub.Some? <==>
                  class_.Flow? && class_.purpose == purpose && class_.subject != "" && now < EndOf(minted, class_))
            && (sub.Some? ==> sub == Some(class_.subject))
  {
    AudiencesDiffer();
  }

  /** The user id that a flow was started for is the one it continues with. */
  lemma FlowKeepsUser(i: Issuer, minted: nat, now: nat, purpose: string, userID: int)
    requires IsInt64(userID) && now < EndOf(minted, Flow(purpose, Format(userID)))
    ensures i.FlowUserID(now, i.FlowToken(minted, purpose, Format(userID)), purpose) == Some(userID)
  {
    FormatIsNotEmpty(userID);
    ParseFormat(userID);
    FlowAcceptsItsPurposeOnly(i, minted, now, Flow(purpose, Format(userID)), purpose);
  }
}
