/** The two cryptographic collaborators, as symbolic stand-ins.

    Password hashing (bcrypt): `Hash` builds a digest term and `Compare`
    is the only way the handlers look at one; a password matches exactly
    the digest made from it.

    Tokens (JSON Web Tokens): `Sign` renders the claims and a tag of the
    signing secret as text; `Verify` accepts a text only when it carries
    the tag of the secret it is given, and then returns the claims it
    carries. Like a real token, the text is dot-separated and has no
    spaces, so it survives being sent as `Bearer <token>`. */
module Crypto {
  import opened Wrappers
  import opened JsText
  import opened Decimal

  /** The work factor both entry points pass to `bcrypt.hash`. */
  const CostFactor: nat := 10

  /** A bcrypt digest, kept as a term: the handlers never read `preimage`;
      only `Compare` does. */
  datatype Digest = Digest(cost: nat, preimage: string)

  /** `bcrypt.compare(password, digest)`. */
  predicate Compare(password: string, digest: Digest) {
    digest.preimage == password
  }

  /** `bcrypt.hash(password, cost)`: the digest matches the password it
      was made from and no other. */
  function Hash(password: string, cost: nat): (d: Digest)
    ensures d.cost == cost
    ensures forall p :: Compare(p, d) <==> p == password
  {
    Digest(cost, password)
  }

  /** The payload of a token: the user's identifier and, when the issuer
      asked for one, the lifetime in seconds (`expiresIn`). */
  datatype Claims = Claims(userId: nat, expiresIn: Option<nat>)

  function ExpiryText(e: Option<nat>): string {
    match e
    case None => "-"
    case Some(s) => NatText(s)
  }

  function ParseExpiry(t: string): Option<Option<nat>> {
    if t == "-" then Some(None)
    else match ParseNat(t)
      case None => None
      case Some(s) => Some(Some(s))
  }

  function CodePoints(secret: string): (codes: seq<string>)
    ensures |codes| == |secret|
    ensures forall i :: 0 <= i < |codes| ==> codes[i] == NatText(secret[i] as nat)
  {
    seq(|secret|, i requires 0 <= i < |secret| => NatText(secret[i] as nat))
  }

  /** The part of a token that only a holder of `secret` produces. */
  function KeyTag(secret: string): string {
    Join(CodePoints(secret), '-')
  }

  /** `jwt.sign(claims, secret)`: fails (throws) when the secret is empty;
      otherwise a non-empty text without spaces that verifies under the
      same secret to exactly the signed claims. */
  function Sign(secret: string, claims: Claims): (token: Option<string>)
    ensures token.Some? <==> secret != ""
    ensures token.Some? ==> token.value != "" && ' ' !in token.value
    ensures token.Some? ==> Verify(secret, token.value) == Some(claims)
  {
    if secret == "" then None
    else
      var fields := [NatText(claims.userId), ExpiryText(claims.expiresIn), KeyTag(secret)];
      FieldsAvoid(fields, '.');
      FieldsAvoid(fields, ' ');
      JoinAvoids(fields, '.', ' ');
      SplitJoin(fields, '.');
      ParseNatText(claims.userId);
      ExpiryRoundTrip(claims.expiresIn);
      Some(Join(fields, '.'))
  }

  /** `jwt.verify(token, secret)`: the claims when the token is well formed
      and carries the tag of `secret`; `None` (an exception) otherwise,
      and always for an empty secret. */
  function Verify(secret: string, token: string): (claims: Option<Claims>)
    ensures claims.Some? ==> secret != ""
    ensures claims.Some? ==> |Split(token, '.')| == 3 && Split(token, '.')[2] == KeyTag(secret)
  {
    if secret == "" then None
    else
      var fields := Split(token, '.');
      if |fields| == 3 && fields[2] == KeyTag(secret) then
        match (ParseNat(fields[0]), ParseExpiry(fields[1]))
        case (Some(uid), Some(exp)) => Some(Claims(uid, exp))
        case _ => None
      else None
  }

  lemma ExpiryRoundTrip(e: Option<nat>)
    ensures ParseExpiry(ExpiryText(e)) == Some(e)
  {
    if e.Some? {
      ParseNatText(e.value);
      assert IsDigit(NatText(e.value)[0]);
    }
  }

  lemma KeyTagAvoids(secret: string, c: char)
    requires !IsDigit(c) && c != '-'
    ensures c !in KeyTag(secret)
  {
    JoinAvoids(CodePoints(secret), '-', c);
  }

  /** Every field of a token avoids the characters that are neither digits
      nor '-'. */
  lemma FieldsAvoid(fields: seq<string>, c: char)
    requires !IsDigit(c) && c != '-'
    requires |fields| == 3
    requires AllDigits(fields[0])
    requires fields[1] == "-" || AllDigits(fields[1])
    requires exists secret :: fields[2] == KeyTag(secret)
    ensures forall i :: 0 <= i < 3 ==> c !in fields[i]
  {
    var secret :| fields[2] == KeyTag(secret);
    KeyTagAvoids(secret, c);
  }

  /** Different secrets have different tags. */
  lemma {:induction false} KeyTagInjective(a: string, b: string)
    requires KeyTag(a) == KeyTag(b)
    ensures a == b
  {
    var ca, cb := CodePoints(a), CodePoints(b);
    if a != [] && b != [] {
      forall i | 0 <= i < |ca| ensures '-' !in ca[i] { }
      forall i | 0 <= i < |cb| ensures '-' !in cb[i] { }
      SplitJoin(ca, '-');
      SplitJoin(cb, '-');
      forall i | 0 <= i < |a| ensures a[i] == b[i] {
        NatTextInjective(a[i] as nat, b[i] as nat);
      }
    }
  }

  /** A token signed with one secret never verifies under another. */
  lemma WrongSecretRejected(signer: string, verifier: string, claims: Claims)
    requires signer != "" && verifier != signer
    ensures Sign(signer, claims).Some?
    ensures Verify(verifier, Sign(signer, claims).value) == None
  {
    var token := Sign(signer, claims).value;
    if Verify(verifier, token).Some? {
      var fields := [NatText(claims.userId), ExpiryText(claims.expiresIn), KeyTag(signer)];
      FieldsAvoid(fields, '.');
      SplitJoin(fields, '.');
      KeyTagInjective(signer, verifier);
    }
  }

  /** A token verifies under at most one secret. */
  lemma VerifiesUnderOneSecret(secret: string, other: string, token: string)
    requires Verify(secret, token).Some? && other != secret
    ensures Verify(other, token) == None
  {
    if Verify(other, token).Some? {
      KeyTagInjective(secret, other);
    }
  }
}
