/**
 * Password storage, registration and login.
 *
 * PBKDF2-HMAC-SHA256 (RFC 8018 section 5.2), base64 (RFC 4648 section 4) and the
 * JWT writer (RFC 7519, signed with HS256 as in RFC 7518 section 3.2) are not
 * modelled: they are the fields of `Primitives`, and only the two facts the
 * service relies on are assumed of them, as the predicate `Sound`. The salt that
 * `RandomNumberGenerator` fills and the clock are parameters.
 */
module AuthService {
  import opened Wrappers
  import opened Text
  import opened TaskItemModel

  newtype byte = x: int | 0 <= x < 256

  const SaltSize := 16
  const KeySize := 32
  const StoredSize := 48
  const Iterations := 10000
  const TokenLifetimeDays := 7

  /** A row of the `Users` table (the columns the service touches). */
  datatype User = User(id: int, name: string, email: string, passwordHash: string)

  datatype UserInfo = UserInfo(id: int, name: string, email: string)

  datatype AuthResponse = AuthResponse(token: string, expires: Time, user: UserInfo)

  datatype LoginRequest = LoginRequest(email: string, password: string)

  datatype RegisterRequest = RegisterRequest(name: string, email: string, password: string)

  /** The library calls the service makes. `fromBase64` is `None` where `Convert.FromBase64String` throws. */
  datatype Primitives = Primitives(
    pbkdf2: (string, seq<byte>, nat, nat) -> seq<byte>,
    toBase64: seq<byte> -> string,
    fromBase64: string -> Option<seq<byte>>,
    jwt: (User, Time) -> string)

  /** PBKDF2 yields as many bytes as asked for, and base64 decodes what it encoded. */
  ghost predicate Sound(p: Primitives) {
    (forall pw: string, salt: seq<byte>, it: nat, n: nat :: |p.pbkdf2(pw, salt, it, n)| == n)
    && (forall b: seq<byte> :: p.fromBase64(p.toBase64(b)) == Some(b))
  }

  /** `Rfc2898DeriveBytes(password, salt, 10000, SHA256).GetBytes(32)`. */
  function DeriveKey(p: Primitives, password: string, salt: seq<byte>): seq<byte> {
    p.pbkdf2(password, salt, Iterations, KeySize)
  }

  // ---------------------------------------------------------------------------
  // HashPassword

  /** The stored form: base64 of the 16 salt bytes followed by the 32 key bytes. */
  function StoredHash(p: Primitives, password: string, salt: seq<byte>): string {
    p.toBase64(salt + DeriveKey(p, password, salt))
  }

  /** `HashPassword` with the random salt given: two `Array.Copy` calls into a 48-byte buffer, then base64. */
  method HashPassword(p: Primitives, password: string, salt: seq<byte>) returns (stored: string)
    requires Sound(p) && |salt| == SaltSize
    ensures p.fromBase64(stored).Some?
    ensures var bytes := p.fromBase64(stored).value;
      |bytes| == StoredSize && bytes[..SaltSize] == salt && bytes[SaltSize..] == DeriveKey(p, password, salt)
    ensures stored == StoredHash(p, password, salt)
  {
    var hash := DeriveKey(p, password, salt);
    var hashBytes := new byte[StoredSize];
    forall i | 0 <= i < SaltSize {
      hashBytes[i] := salt[i];
    }
    forall i | 0 <= i < KeySize {
      hashBytes[SaltSize + i] := hash[i];
    }
    assert hashBytes[..] == salt + hash;
    stored := p.toBase64(hashBytes[..]);
  }

  // ---------------------------------------------------------------------------
  // VerifyPassword

  const FormatException := "FormatException"
  const ArgumentException := "ArgumentException"
  const IndexOutOfRangeException := "IndexOutOfRangeException"

  /**
   * The comparison loop from position `i` on: `false` at the first mismatch,
   * an exception when it reads past the decoded bytes, `true` after 32 matches.
   */
  function CompareFrom(bytes: seq<byte>, computed: seq<byte>, i: nat): Result<bool>
    requires |computed| == KeySize
    decreases KeySize - i
  {
    if i >= KeySize then Ok(true)
    else if i + SaltSize >= |bytes| then Err(IndexOutOfRangeException)
    else if bytes[i + SaltSize] != computed[i] then Ok(false)
    else CompareFrom(bytes, computed, i + 1)
  }

  /** `VerifyPassword`; `Err` names the exception it throws on a malformed stored hash. */
  function Verify(p: Primitives, password: string, hash: string): Result<bool>
    requires Sound(p)
  {
    match p.fromBase64(hash)
    case None => Err(FormatException)
    case Some(bytes) =>
      if |bytes| < SaltSize then Err(ArgumentException)
      else CompareFrom(bytes, DeriveKey(p, password, bytes[..SaltSize]), 0)
  }

  method VerifyPassword(p: Primitives, password: string, hash: string) returns (r: Result<bool>)
    requires Sound(p)
    ensures r == Verify(p, password, hash)
  {
    var decoded := p.fromBase64(hash);
    if decoded.None? {
      return Err(FormatException);
    }
    var hashBytes := decoded.value;
    if |hashBytes| < SaltSize {
      return Err(ArgumentException);
    }
    var salt := new byte[SaltSize];
    forall i | 0 <= i < SaltSize {
      salt[i] := hashBytes[i];
    }
    assert salt[..] == hashBytes[..SaltSize];
    var computedHash := DeriveKey(p, password, salt[..]);
    var i := 0;
    while i < KeySize
      invariant 0 <= i <= KeySize
      invariant CompareFrom(hashBytes, computedHash, 0) == CompareFrom(hashBytes, computedHash, i)
    {
      if i + SaltSize >= |hashBytes| {
        return Err(IndexOutOfRangeException);
      }
      if hashBytes[i + SaltSize] != computedHash[i] {
        return Ok(false);
      }
      i := i + 1;
    }
    return Ok(true);
  }

  lemma {:induction false} CompareFromAll(bytes: seq<byte>, computed: seq<byte>, i: nat)
    requires |computed| == KeySize && |bytes| >= StoredSize && i <= KeySize
    ensures CompareFrom(bytes, computed, i) == Ok(forall j :: i <= j < KeySize ==> bytes[j + SaltSize] == computed[j])
    decreases KeySize - i
  {
    if i < KeySize {
      CompareFromAll(bytes, computed, i + 1);
    }
  }

  /** On a well-formed 48-byte hash, verification re-derives the key from bytes 0..15 and compares it with bytes 16..47. */
  lemma VerifyMeaning(p: Primitives, password: string, hash: string)
    requires Sound(p) && p.fromBase64(hash).Some? && |p.fromBase64(hash).value| == StoredSize
    ensures var bytes := p.fromBase64(hash).value;
      Verify(p, password, hash) == Ok(bytes[SaltSize..] == DeriveKey(p, password, bytes[..SaltSize]))
  {
    var bytes := p.fromBase64(hash).value;
    var computed := DeriveKey(p, password, bytes[..SaltSize]);
    CompareFromAll(bytes, computed, 0);
    if forall j :: 0 <= j < KeySize ==> bytes[j + SaltSize] == computed[j] {
      assert bytes[SaltSize..] == computed;
    } else {
      var j :| 0 <= j < KeySize && bytes[j + SaltSize] != computed[j];
      assert bytes[SaltSize..][j] != computed[j];
    }
  }

  lemma {:induction false} CompareFromMismatch(bytes: seq<byte>, computed: seq<byte>, i: nat, j: nat)
    requires |computed| == KeySize && i <= j < KeySize && j + SaltSize < |bytes|
    requires bytes[j + SaltSize] != computed[j]
    requires forall m :: i <= m < j ==> bytes[m + SaltSize] == computed[m]
    ensures CompareFrom(bytes, computed, i) == Ok(false)
    decreases j - i
  {
    if i < j {
      CompareFromMismatch(bytes, computed, i + 1, j);
    }
  }

  /** The loop returns `false` at the first differing byte, before it could read past a short buffer. */
  lemma VerifyFirstMismatch(p: Primitives, password: string, hash: string, j: nat)
    requires Sound(p) && p.fromBase64(hash).Some? && j < KeySize && j + SaltSize < |p.fromBase64(hash).value|
    requires var bytes := p.fromBase64(hash).value; var key := DeriveKey(p, password, bytes[..SaltSize]);
      bytes[j + SaltSize] != key[j]
      && forall m :: 0 <= m < j ==> bytes[m + SaltSize] == key[m]
    ensures Verify(p, password, hash) == Ok(false)
  {
    var bytes := p.fromBase64(hash).value;
    CompareFromMismatch(bytes, DeriveKey(p, password, bytes[..SaltSize]), 0, j);
  }

  /** A hash made by `HashPassword` verifies the password it was made from. */
  lemma HashThenVerify(p: Primitives, password: string, salt: seq<byte>)
    requires Sound(p) && |salt| == SaltSize
    ensures Verify(p, password, StoredHash(p, password, salt)) == Ok(true)
  {
    var bytes := salt + DeriveKey(p, password, salt);
    assert p.fromBase64(StoredHash(p, password, salt)) == Some(bytes);
    assert bytes[..SaltSize] == salt;
    VerifyMeaning(p, password, StoredHash(p, password, salt));
  }

  // ---------------------------------------------------------------------------
  // Registration and login over the Users table

  datatype Users = Users(rows: seq<User>, nextId: int)

  /** Ids are positive, unique and below `nextId`; no two emails are equal ignoring case. */
  predicate UsersValid(u: Users) {
    u.nextId >= 1
    && (forall i :: 0 <= i < |u.rows| ==> 0 < u.rows[i].id < u.nextId)
    && (forall i, j :: 0 <= i < j < |u.rows| ==> u.rows[i].id != u.rows[j].id)
    && (forall i, j :: 0 <= i < j < |u.rows| ==> ToLower(u.rows[i].email) != ToLower(u.rows[j].email))
  }

  predicate SameEmail(u: User, email: string) {
    ToLower(u.email) == ToLower(email)
  }

  /** `FirstOrDefaultAsync(u => u.Email.ToLower() == email.ToLower())`: the first such row. */
  function FindUser(rows: seq<User>, email: string): (r: Option<nat>)
    ensures r.Some? ==> r.value < |rows| && SameEmail(rows[r.value], email)
    ensures r.Some? ==> forall k :: 0 <= k < r.value ==> !SameEmail(rows[k], email)
    ensures r.None? <==> forall k :: 0 <= k < |rows| ==> !SameEmail(rows[k], email)
  {
    if rows == [] then None
    else if SameEmail(rows[0], email) then Some(0)
    else match FindUser(rows[1..], email)
      case None => None
      case Some(k) => Some(k + 1)
  }

  /** The response both endpoints build for a user: a token, a 7-day expiry, and the stored user's fields. */
  function Respond(p: Primitives, u: User, now: Time): AuthResponse {
    AuthResponse(p.jwt(u, now), now + TokenLifetimeDays * TicksPerDay, UserInfo(u.id, u.name, u.email))
  }

  /** `LoginAsync`: `Ok(None)` is the null result; `Err` an exception from `VerifyPassword`. */
  function Login(p: Primitives, rows: seq<User>, req: LoginRequest, now: Time): Result<Option<AuthResponse>>
    requires Sound(p)
  {
    match FindUser(rows, req.email)
    case None => Ok(None)
    case Some(k) =>
      match Verify(p, req.password, rows[k].passwordHash)
      case Err(e) => Err(e)
      case Ok(ok) => if ok then Ok(Some(Respond(p, rows[k], now))) else Ok(None)
  }

  /** `RegisterAsync`, with the salt its `HashPassword` call draws. */
  function Register(p: Primitives, u: Users, req: RegisterRequest, salt: seq<byte>, now: Time): (Option<AuthResponse>, Users) {
    if FindUser(u.rows, req.email).Some? then (None, u)
    else
      var user := User(u.nextId, req.name, ToLower(req.email), StoredHash(p, req.password, salt));
      (Some(Respond(p, user, now)), Users(u.rows + [user], u.nextId + 1))
  }

  /** The lookup sees an e-mail only through its lower-cased form. */
  lemma {:induction false} FindUserByLowered(rows: seq<User>, a: string, b: string)
    requires ToLower(a) == ToLower(b)
    ensures FindUser(rows, a) == FindUser(rows, b)
  {
    if rows != [] {
      FindUserByLowered(rows[1..], a, b);
    }
  }

  /** An e-mail typed in capitals finds the same account as the address itself. */
  lemma CapitalsFindSameAccount(rows: seq<User>, email: string)
    ensures FindUser(rows, ToUpper(email)) == FindUser(rows, email)
  {
    ToLowerOfUpper(email);
    FindUserByLowered(rows, ToUpper(email), email);
  }

  /** An email already taken, in any letter case, is refused and nothing is added. */
  lemma RegisterDuplicate(p: Primitives, u: Users, req: RegisterRequest, salt: seq<byte>, now: Time, k: nat)
    requires k < |u.rows| && ToLower(u.rows[k].email) == ToLower(req.email)
    ensures Register(p, u, req, salt, now) == (None, u)
  {
    assert SameEmail(u.rows[k], req.email);
  }

  /**
   * A new email adds exactly one user: lower-cased email, the given name, a hash
   * that verifies the password; the response copies the stored row and expires in 7 days.
   */
  lemma RegisterAdds(p: Primitives, u: Users, req: RegisterRequest, salt: seq<byte>, now: Time)
    requires Sound(p) && |salt| == SaltSize && UsersValid(u)
    requires forall k :: 0 <= k < |u.rows| ==> ToLower(u.rows[k].email) != ToLower(req.email)
    ensures var (r, u') := Register(p, u, req, salt, now);
      r.Some? && |u'.rows| == |u.rows| + 1 && u'.rows[..|u.rows|] == u.rows && UsersValid(u')
      && var user := u'.rows[|u.rows|];
        user.email == ToLower(req.email) && user.name == req.name
        && Verify(p, req.password, user.passwordHash) == Ok(true)
        && (forall k :: 0 <= k < |u.rows| ==> u.rows[k].id != user.id)
        && r.value.user == UserInfo(user.id, user.name, user.email)
        && r.value.expires == now + 7 * TicksPerDay
  {
    assert FindUser(u.rows, req.email).None?;
    HashThenVerify(p, req.password, salt);
    var u' := Register(p, u, req, salt, now).1;
    ToLowerIdempotent(req.email);
    assert u'.rows[..|u.rows|] == u.rows;
  }

  /** An unknown email and a wrong password give the same null result. */
  lemma LoginIndistinguishable(p: Primitives, rows: seq<User>, unknown: LoginRequest, wrong: LoginRequest, now: Time)
    requires Sound(p)
    requires forall k :: 0 <= k < |rows| ==> ToLower(rows[k].email) != ToLower(unknown.email)
    requires FindUser(rows, wrong.email).Some?
    requires Verify(p, wrong.password, rows[FindUser(rows, wrong.email).value].passwordHash) == Ok(false)
    ensures Login(p, rows, unknown, now) == Login(p, rows, wrong, now) == Ok(None)
  {
    assert FindUser(rows, unknown.email).None?;
  }

  /** A successful login describes the stored row (its email as stored, not as typed) and expires in 7 days. */
  lemma LoginSucceeds(p: Primitives, rows: seq<User>, req: LoginRequest, now: Time)
    requires Sound(p) && Login(p, rows, req, now).Ok? && Login(p, rows, req, now).value.Some?
    ensures var r := Login(p, rows, req, now).value.value;
      exists k :: 0 <= k < |rows| && ToLower(rows[k].email) == ToLower(req.email)
        && Verify(p, req.password, rows[k].passwordHash) == Ok(true)
        && r.user == UserInfo(rows[k].id, rows[k].name, rows[k].email)
        && r.expires == now + 7 * TicksPerDay
  {
    var k := FindUser(rows, req.email).value;
    assert ToLower(rows[k].email) == ToLower(req.email);
  }

  /** After registering, logging in with the same password and the email in any letter case succeeds. */
  lemma RegisterThenLogin(p: Primitives, u: Users, req: RegisterRequest, salt: seq<byte>, now: Time,
                          email: string, later: Time)
    requires Sound(p) && |salt| == SaltSize && UsersValid(u)
    requires Register(p, u, req, salt, now).0.Some?
    requires ToLower(email) == ToLower(req.email)
    ensures var u' := Register(p, u, req, salt, now).1;
      Login(p, u'.rows, LoginRequest(email, req.password), later)
        == Ok(Some(Respond(p, u'.rows[|u.rows|], later)))
  {
    assert FindUser(u.rows, req.email).None?;
    RegisterAdds(p, u, req, salt, now);
    var u' := Register(p, u, req, salt, now).1;
    var user := u'.rows[|u.rows|];
    ToLowerIdempotent(req.email);
    assert SameEmail(user, email);
    forall k | 0 <= k < |u.rows| ensures !SameEmail(u'.rows[k], email) {
      assert u'.rows[k] == u.rows[k];
      assert !SameEmail(u.rows[k], req.email);
    }
    assert FindUser(u'.rows, email) == Some(|u.rows|);
  }

  // ---------------------------------------------------------------------------
  // The service over a mutable Users table

  class Accounts {
    var rows: seq<User>
    var nextId: int
    const primitives: Primitives

    function Model(): Users
      reads this
    {
      Users(rows, nextId)
    }

    ghost predicate Valid()
      reads this
    {
      UsersValid(Model()) && Sound(primitives)
    }

    constructor (p: Primitives)
      requires Sound(p)
      ensures Valid() && rows == [] && nextId == 1 && primitives == p
    {
      rows := [];
      nextId := 1;
      primitives := p;
    }

    method LookUp(email: string) returns (k: Option<nat>)
      ensures k == FindUser(rows, email)
    {
      var lowered := ToLower(email);
      var i := 0;
      while i < |rows|
        invariant 0 <= i <= |rows|
        invariant forall j :: 0 <= j < i ==> !SameEmail(rows[j], email)
      {
        if ToLower(rows[i].email) == lowered {
          return Some(i);
        }
        i := i + 1;
      }
      return None;
    }

    /** `LoginAsync`. */
    method LoginAsync(req: LoginRequest, now: Time) returns (r: Result<Option<AuthResponse>>)
      requires Valid()
      ensures r == Login(primitives, rows, req, now)
    {
      var k := LookUp(req.email);
      if k.None? {
        return Ok(None);
      }
      var user := rows[k.value];
      var ok := VerifyPassword(primitives, req.password, user.passwordHash);
      if ok.Err? {
        return Err(ok.error);
      }
      if !ok.value {
        return Ok(None);
      }
      r := Ok(Some(Respond(primitives, user, now)));
    }

    /** `RegisterAsync`, with the salt its `HashPassword` call draws. */
    method RegisterAsync(req: RegisterRequest, salt: seq<byte>, now: Time) returns (r: Option<AuthResponse>)
      requires Valid() && |salt| == SaltSize
      modifies this
      ensures Valid()
      ensures (r, Model()) == Register(primitives, old(Model()), req, salt, now)
    {
      var k := LookUp(req.email);
      if k.Some? {
        return None;
      }
      RegisterAdds(primitives, Model(), req, salt, now);
      var hash := HashPassword(primitives, req.password, salt);
      var user := User(nextId, req.name, ToLower(req.email), hash);
      rows := rows + [user];
      nextId := nextId + 1;
      r := Some(Respond(primitives, user, now));
    }
  }
}
