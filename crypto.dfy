/** The two libraries the controller calls for secrets, reduced to the
    properties the controller relies on.

    bcrypt: `hash(password, 10)` yields a digest and `compare(candidate,
    digest)` accepts exactly the password that was hashed. Salting, the cost
    factor and bcrypt's 72-byte input limit are not modelled. The constructor
    `Bcrypt` stands for an opaque digest: its argument records which password
    it was made from, and Digest is a type of its own, so a password field
    cannot be assigned a plain string.

    jsonwebtoken: `sign(payload, JWT_SECRET)` yields a token and
    `verify(token, JWT_SECRET)` gives the payload back for a token the service
    signed and fails for anything else (forged, tampered or expired). */
module Crypto {
  import opened Common

  datatype Digest = Bcrypt(secret: string)

  function Hash(password: string): (d: Digest)
  {
    Bcrypt(password)
  }

  /** `bcrypt.compare`: true exactly for the password the digest was made from. */
  function Compare(candidate: string, d: Digest): (ok: bool)
    ensures ok <==> Hash(candidate) == d
  {
    d.secret == candidate
  }

  /** In the model distinct passwords never share a digest, so Compare tells
      them apart. */
  lemma HashInjective(p: string, q: string)
    ensures Hash(p) == Hash(q) <==> p == q
    ensures Compare(p, Hash(q)) <==> p == q
  {
  }

  /** The JWT payload. Registration signs `{email, userType}` (no id); login
      signs `{id, email, userType}`. */
  datatype Claims = Claims(id: Option<ObjectId>, email: string, userType: string)

  /** A token the service signed with its secret, or any other string a client
      may present. */
  datatype Token = Signed(claims: Claims) | Foreign(text: string)

  /** `jwt.sign`: verifying what it returns gives the payload back. */
  function Sign(c: Claims): (t: Token)
    ensures Verify(t) == Some(c)
  {
    Signed(c)
  }

  /** `jwt.verify`: `None` models the thrown error. */
  function Verify(t: Token): (r: Option<Claims>)
    ensures r.Some? <==> t.Signed?
    ensures t.Signed? ==> r == Some(t.claims)
  {
    match t
    case Signed(c) => Some(c)
    case Foreign(_) => None
  }
}
