/**
 * The token and password services the server relies on
 * (blog_server/src/infrastructure/security.rs), as abstract oracles. The
 * JSON Web Token signing (jsonwebtoken, HS256) and the argon2 hashing are
 * not modelled; what the server relies on is stated as laws, taken from the
 * module's own tests, and a small lawful instance shows the laws can hold
 * together.
 */
module Security {
  import opened Wrappers
  import Text
  import Uuids

  /** The claims of a token; only the subject is modelled (expiry and issue time are clock readings). */
  datatype Claims = Claims(sub: string)

  /** `JwtService { secret, expiration_minuts }` */
  datatype JwtService = JwtService(secret: string, expirationMinutes: int)

  /** Signing and checking a token under a secret; errors are their display texts. */
  datatype JwtOracle = JwtOracle(
    encode: (string, Claims) -> Result<string, string>,
    decode: (string, string) -> Result<Claims, string>)

  /**
   * What the tests of security.rs establish: a token verifies under the secret
   * that signed it and yields the same claims, and fails under any other secret.
   */
  ghost predicate JwtLaws(o: JwtOracle) {
    && (forall secret, c :: o.encode(secret, c).Success? ==> o.decode(secret, o.encode(secret, c).value) == Success(c))
    && (forall secret, other, c :: secret != other && o.encode(secret, c).Success? ==>
          o.decode(other, o.encode(secret, c).value).Failure?)
  }

  /** `generate_token`: claims whose subject is the user id in its rendered form. */
  function GenerateToken(o: JwtOracle, keys: JwtService, userId: Uuids.Uuid): Result<string, string> {
    o.encode(keys.secret, Claims(Uuids.ToString(userId)))
  }

  /** `verify_token` */
  function VerifyToken(o: JwtOracle, keys: JwtService, token: string): Result<Claims, string> {
    o.decode(keys.secret, token)
  }

  /** A generated token verifies, and its subject parses back to the user id. */
  lemma VerifyGeneratedToken(o: JwtOracle, keys: JwtService, userId: Uuids.Uuid)
    requires JwtLaws(o) && GenerateToken(o, keys, userId).Success?
    ensures VerifyToken(o, keys, GenerateToken(o, keys, userId).value) == Success(Claims(Uuids.ToString(userId)))
    ensures Uuids.Parse(VerifyToken(o, keys, GenerateToken(o, keys, userId).value).value.sub) == Success(userId)
  {
    Uuids.ParseToString(userId);
  }

  /** A token generated under one secret is refused by a service holding another. */
  lemma ForeignTokenRejected(o: JwtOracle, keys: JwtService, other: JwtService, userId: Uuids.Uuid)
    requires JwtLaws(o) && keys.secret != other.secret && GenerateToken(o, other, userId).Success?
    ensures VerifyToken(o, keys, GenerateToken(o, other, userId).value).Failure?
  {
  }

  /** argon2 hashing with a salt, and checking a password against a stored PHC string. */
  datatype PasswordOracle = PasswordOracle(
    hash: (string, string) -> Result<string, string>,
    verify: (string, string) -> Result<bool, string>)

  /** A password verifies against its own hash. */
  ghost predicate PasswordLaws(o: PasswordOracle) {
    forall password, salt :: o.hash(password, salt).Success? ==>
      o.verify(password, o.hash(password, salt).value) == Success(true)
  }

  /** `password_hash`, with the random salt as a parameter. */
  function PasswordHash(o: PasswordOracle, password: string, salt: string): Result<string, string> {
    o.hash(password, salt)
  }

  /** `password_verify`: Failure when the stored string is not a well-formed hash. */
  function PasswordVerify(o: PasswordOracle, password: string, hash: string): Result<bool, string> {
    o.verify(password, hash)
  }

  // ---------------------------------------------------------------------
  // A lawful instance
  // ---------------------------------------------------------------------

  /** Each character written twice, then the two distinct characters "!#". */
  function Tag(s: string): (t: string)
    ensures |t| == 2 * |s| + 2
  {
    if s == [] then "!#" else [s[0], s[0]] + Tag(s[1..])
  }

  /** No tag is a prefix of the tag of another string followed by anything. */
  lemma {:induction false} TagPrefixFree(s: string, other: string, rest: string)
    requires |Tag(other)| <= |Tag(s) + rest| && (Tag(s) + rest)[..|Tag(other)|] == Tag(other)
    ensures s == other
    decreases |s|
  {
    var t, u := Tag(s) + rest, Tag(other);
    TagStart(s);
    TagStart(other);
    assert t[0] == u[0] && t[1] == u[1] by {
      assert t[..|u|][0] == u[0] && t[..|u|][1] == u[1];
    }
    if s == [] && other != [] {
      assert false;
    } else if s != [] && other == [] {
      assert false;
    } else if s != [] && other != [] {
      assert t[0] == u[0];
      assert Tag(s) + rest == [s[0], s[0]] + (Tag(s[1..]) + rest);
      assert (Tag(s[1..]) + rest)[..|Tag(other[1..])|] == Tag(other[1..]) by {
        assert t[2..|u|] == u[2..];
      }
      TagPrefixFree(s[1..], other[1..], rest);
    }
  }

  /** A tag opens with a doubled character, or with "!#" for the empty string. */
  lemma TagStart(s: string)
    ensures s == [] ==> Tag(s)[0] == '!' && Tag(s)[1] == '#'
    ensures s != [] ==> Tag(s)[0] == s[0] && Tag(s)[1] == s[0]
  {
  }

  function ExampleEncode(secret: string, c: Claims): Result<string, string> {
    Success(Tag(secret) + c.sub)
  }

  function ExampleDecode(secret: string, token: string): Result<Claims, string> {
    var tag := Tag(secret);
    if |tag| <= |token| && token[..|tag|] == tag then Success(Claims(token[|tag|..]))
    else Failure("InvalidSignature")
  }

  function ExampleJwt(): JwtOracle {
    JwtOracle(ExampleEncode, ExampleDecode)
  }

  lemma ExampleJwtLawful()
    ensures JwtLaws(ExampleJwt())
  {
    var o := ExampleJwt();
    forall secret, c | o.encode(secret, c).Success?
      ensures o.decode(secret, o.encode(secret, c).value) == Success(c)
    {
      var token := Tag(secret) + c.sub;
      assert token[..|Tag(secret)|] == Tag(secret);
      assert token[|Tag(secret)|..] == c.sub;
    }
    forall secret, other, c | secret != other && o.encode(secret, c).Success?
      ensures o.decode(other, o.encode(secret, c).value).Failure?
    {
      var token := Tag(secret) + c.sub;
      if |Tag(other)| <= |token| && token[..|Tag(other)|] == Tag(other) {
        TagPrefixFree(secret, other, c.sub);
      }
    }
  }

  const EXAMPLE_SCHEME: string := "$example$"

  function CharSum(s: string): nat {
    if s == [] then 0 else s[0] as nat + CharSum(s[1..])
  }

  function ExampleDigest(password: string): string {
    "$" + Text.NatToString(CharSum(password))
  }

  function ExampleHash(password: string, salt: string): Result<string, string> {
    Success(EXAMPLE_SCHEME + salt + ExampleDigest(password))
  }

  function ExampleVerify(password: string, hash: string): Result<bool, string> {
    var digest := ExampleDigest(password);
    if !Text.StartsWith(hash, EXAMPLE_SCHEME) then Failure("password hash string invalid")
    else Success(|digest| <= |hash| && hash[|hash| - |digest|..] == digest)
  }

  function ExamplePasswords(): PasswordOracle {
    PasswordOracle(ExampleHash, ExampleVerify)
  }

  lemma ExamplePasswordsLawful()
    ensures PasswordLaws(ExamplePasswords())
  {
    var o := ExamplePasswords();
    forall password, salt | o.hash(password, salt).Success?
      ensures o.verify(password, o.hash(password, salt).value) == Success(true)
    {
      var h := EXAMPLE_SCHEME + salt + ExampleDigest(password);
      assert h[..|EXAMPLE_SCHEME|] == EXAMPLE_SCHEME;
      assert h[|h| - |ExampleDigest(password)|..] == ExampleDigest(password);
    }
  }
}
