/**
 * The tokens of Backend/server.js (`generateToken`, `jwt.verify`), modelled
 * without cryptography. A token is a deterministic function of the signing
 * secret and of its claims `{id, email, name}` plus the issuing second `iat`,
 * as `jwt.sign` is; verifying recomputes the signature and checks the 24-hour
 * window (`expiresIn: '24h'`). The encoding escapes '.', ' ' and '\', so a
 * token never contains a space (it travels as the second word of the
 * Authorization header) and its fields can be read back.
 */
module Jwt {
  import opened Options
  import opened Strings

  /** `expiresIn: '24h'`, in seconds. */
  const TokenLifetime: nat := 24 * 60 * 60

  /** The decoded payload: the user's id, email and name, and `iat` in seconds. */
  datatype Claims = Claims(id: nat, email: string, name: string, iat: nat)

  function EscapeChar(c: char): string {
    if c == '.' then "\\d"
    else if c == ' ' then "\\s"
    else if c == '\\' then "\\\\"
    else [c]
  }

  function Escape(s: string): (r: string)
    ensures '.' !in r && ' ' !in r
    decreases |s|
  {
    if s == [] then [] else EscapeChar(s[0]) + Escape(s[1..])
  }

  function UnescapeChar(c: char): char {
    if c == 'd' then '.' else if c == 's' then ' ' else c
  }

  /** A field followed by the separator '.' and the rest of the token. */
  function Field(f: string, rest: string): string {
    Escape(f) + "." + rest
  }

  /** Reads one field up to the first unescaped '.', returning it and what follows. */
  function ReadField(s: string): Option<(string, string)>
    decreases |s|
  {
    if s == [] then None
    else if s[0] == '.' then Some(([], s[1..]))
    else if s[0] == '\\' then
      if |s| < 2 then None
      else match ReadField(s[2..])
        case None => None
        case Some(p) => Some(([UnescapeChar(s[1])] + p.0, p.1))
    else match ReadField(s[1..])
      case None => None
      case Some(p) => Some(([s[0]] + p.0, p.1))
  }

  /** Reading past one escaped character puts that character back in front. */
  lemma ReadFieldEscapeChar(c: char, t: string)
    ensures ReadField(EscapeChar(c) + t)
      == match ReadField(t)
         case None => None
         case Some(p) => Some(([c] + p.0, p.1))
  {
    var s := EscapeChar(c) + t;
    if c == '.' || c == ' ' || c == '\\' {
      assert s[0] == '\\' && s[2..] == t;
    } else {
      assert s[0] == c && s[1..] == t;
    }
  }

  lemma {:induction false} ReadFieldOfField(f: string, rest: string)
    ensures ReadField(Field(f, rest)) == Some((f, rest))
    decreases |f|
  {
    if f == [] {
      assert Field(f, rest) == "." + rest;
    } else {
      ReadFieldOfField(f[1..], rest);
      assert Field(f, rest) == EscapeChar(f[0]) + Field(f[1..], rest);
      ReadFieldEscapeChar(f[0], Field(f[1..], rest));
      assert f == [f[0]] + f[1..];
    }
  }

  /** The payload fields, in front of `tail`. */
  function Fields(c: Claims, tail: string): string {
    Field(Show(c.id), Field(c.email, Field(c.name, Field(Show(c.iat), tail))))
  }

  /** Stands in for the HMAC of the payload under the secret. */
  function Signature(secret: string, c: Claims): string {
    Escape(secret) + Escape(Fields(c, []))
  }

  /** `jwt.sign(claims, secret, {expiresIn: '24h'})`. */
  function Sign(secret: string, c: Claims): (t: string)
    ensures ' ' !in t && t != []
  {
    Fields(c, Signature(secret, c))
  }

  /** Reads the claims back out of a token, without checking anything. */
  function Decode(t: string): Option<Claims> {
    match ReadField(t)
    case None => None
    case Some(f1) =>
      match ReadField(f1.1)
      case None => None
      case Some(f2) =>
        match ReadField(f2.1)
        case None => None
        case Some(f3) =>
          match ReadField(f3.1)
          case None => None
          case Some(f4) => Some(Claims(ParseNat(f1.0), f2.0, f3.0, ParseNat(f4.0)))
  }

  /**
   * `jwt.verify(token, secret)` at the second `nowSec`: the decoded claims
   * when the token carries the signature of this secret and has not expired
   * (jsonwebtoken rejects once `nowSec >= exp`), otherwise nothing (the
   * source's call throws).
   */
  function Verify(secret: string, t: string, nowSec: nat): (r: Option<Claims>)
    ensures r.Some? ==> t == Sign(secret, r.value) && nowSec < r.value.iat + TokenLifetime
  {
    match Decode(t)
    case None => None
    case Some(c) =>
      if t == Sign(secret, c) && nowSec < c.iat + TokenLifetime then Some(c) else None
  }

  lemma DecodeSign(secret: string, c: Claims)
    ensures Decode(Sign(secret, c)) == Some(c)
  {
    var sig := Signature(secret, c);
    ReadFieldOfField(Show(c.id), Field(c.email, Field(c.name, Field(Show(c.iat), sig))));
    ReadFieldOfField(c.email, Field(c.name, Field(Show(c.iat), sig)));
    ReadFieldOfField(c.name, Field(Show(c.iat), sig));
    ReadFieldOfField(Show(c.iat), sig);
    ParseShow(c.id);
    ParseShow(c.iat);
  }

  /** A token the server signed verifies, with its own claims, exactly during its 24 hours. */
  lemma VerifySign(secret: string, c: Claims, nowSec: nat)
    ensures Verify(secret, Sign(secret, c), nowSec)
      == if nowSec < c.iat + TokenLifetime then Some(c) else None
  {
    DecodeSign(secret, c);
  }

  /** Different claims give different tokens (two logins in the same second give the same one). */
  lemma SignInjective(secret: string, c1: Claims, c2: Claims)
    requires Sign(secret, c1) == Sign(secret, c2)
    ensures c1 == c2
  {
    DecodeSign(secret, c1);
    DecodeSign(secret, c2);
  }

  /** Escaping loses nothing. */
  lemma EscapeInjective(a: string, b: string)
    requires Escape(a) == Escape(b)
    ensures a == b
  {
    ReadFieldOfField(a, []);
    ReadFieldOfField(b, []);
  }

  /** A token signed under one secret does not verify under another. */
  lemma OtherSecretRejected(secret: string, other: string, c: Claims, nowSec: nat)
    requires other != secret
    ensures Verify(other, Sign(secret, c), nowSec) == None
  {
    DecodeSign(secret, c);
    var p := Escape(Fields(c, []));
    if Sign(other, c) == Sign(secret, c) {
      FieldsCancel(c, Signature(other, c), Signature(secret, c));
      assert Escape(other) + p == Escape(secret) + p;
      assert Escape(other) == (Escape(other) + p)[..|Escape(other) + p| - |p|];
      assert Escape(secret) == (Escape(secret) + p)[..|Escape(secret) + p| - |p|];
      EscapeInjective(other, secret);
    }
  }

  /** The payload in front of two tails can be cancelled. */
  lemma FieldsCancel(c: Claims, x: string, y: string)
    requires Fields(c, x) == Fields(c, y)
    ensures x == y
  {
    ReadFieldOfField(Show(c.id), Field(c.email, Field(c.name, Field(Show(c.iat), x))));
    ReadFieldOfField(Show(c.id), Field(c.email, Field(c.name, Field(Show(c.iat), y))));
    ReadFieldOfField(c.email, Field(c.name, Field(Show(c.iat), x)));
    ReadFieldOfField(c.email, Field(c.name, Field(Show(c.iat), y)));
    ReadFieldOfField(c.name, Field(Show(c.iat), x));
    ReadFieldOfField(c.name, Field(Show(c.iat), y));
    ReadFieldOfField(Show(c.iat), x);
    ReadFieldOfField(Show(c.iat), y);
  }
}
