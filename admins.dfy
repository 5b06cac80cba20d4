/** Administrators: an in-memory account list, password login that issues a
    token, and the bearer-token check on the `Authorization` header. */
module Admins {

  import opened JsValue
  import opened JsString
  import opened Seqs

  datatype Admin = Admin(username: string, passwordHash: string)

  /** bcrypt and jsonwebtoken as given functions: `hash` is `hashSync(_, 8)`,
      `compare` is `compareSync`, `sign` issues the token for a username and
      `verify` yields the token's payload, or None where it throws. */
  datatype Crypto = Crypto(
    hash: string -> string,
    compare: (string, string) -> bool,
    sign: string -> string,
    verify: string -> Option<Value>)

  datatype AddResult = Added | AddError(error: string)

  datatype AuthResult = Token(token: string) | AuthError(error: string)

  const UsernameTaken: string := "Username already exists"
  const InvalidCredentials: string := "Invalid credentials"

  ghost predicate UniqueUsernames(admins: seq<Admin>) {
    forall i, j :: 0 <= i < j < |admins| ==> admins[i].username != admins[j].username
  }

  /** `admins.find(a => a.username === username)`, as a position. */
  function FindAdmin(admins: seq<Admin>, username: string): Option<nat> {
    FindIndex(admins, (a: Admin) => a.username == username)
  }

  /** Appending an admin whose username is not yet taken keeps usernames unique. */
  lemma AppendKeepsUnique(admins: seq<Admin>, a: Admin)
    requires UniqueUsernames(admins) && FindAdmin(admins, a.username).None?
    ensures UniqueUsernames(admins + [a])
  {
  }

  /** `authenticateAdmin({username, password})`. An unknown username and a
      wrong password give the same error; with unique usernames a token is
      issued exactly when the password matches that admin's hash. */
  function Authenticate(admins: seq<Admin>, c: Crypto, username: string, password: string): (r: AuthResult)
    ensures r.Token? ==> r.token == c.sign(username)
    ensures r.AuthError? ==> r.error == InvalidCredentials
    ensures (forall i :: 0 <= i < |admins| ==> admins[i].username != username) ==> r == AuthError(InvalidCredentials)
    ensures UniqueUsernames(admins) ==>
              forall i :: 0 <= i < |admins| && admins[i].username == username ==>
                (r.Token? <==> c.compare(password, admins[i].passwordHash))
  {
    match FindAdmin(admins, username)
    case None => AuthError(InvalidCredentials)
    case Some(k) =>
      if !c.compare(password, admins[k].passwordHash) then AuthError(InvalidCredentials)
      else Token(c.sign(username))
  }

  /** The header shape that passes: "Bearer", one space, and a token without spaces. */
  predicate BearerShaped(auth: string) {
    |auth| >= 7 && auth[..7] == "Bearer " && ' ' !in auth[7..]
  }

  /** `verifyToken(req)` on the `Authorization` header ("" when absent). */
  function VerifyToken(auth: string, verify: string -> Option<Value>): (r: Option<Value>)
    ensures r.Some? ==> BearerShaped(auth) && r == verify(auth[7..])
  {
    if auth == "" then None
    else
      var parts := Split(auth, ' ');
      if |parts| != 2 || parts[0] != "Bearer" then None
      else
        JoinSplit(auth, ' ');
        assert auth == "Bearer" + [' '] + parts[1];
        assert auth[..7] == "Bearer " && auth[7..] == parts[1];
        verify(parts[1])
  }

  /** The header passes the split rule exactly when it is "Bearer <token>"
      with a space-free token, and then the result is that token's payload. */
  lemma VerifyTokenShape(auth: string, verify: string -> Option<Value>)
    ensures VerifyToken(auth, verify) == (if BearerShaped(auth) then verify(auth[7..]) else None)
  {
    if auth != "" {
      var parts := Split(auth, ' ');
      if |parts| == 2 && parts[0] == "Bearer" {
        JoinSplit(auth, ' ');
        assert auth == "Bearer" + [' '] + parts[1];
        assert auth[..7] == "Bearer " && auth[7..] == parts[1];
      } else if BearerShaped(auth) {
        var t := auth[7..];
        assert auth == Join(["Bearer", t], ' ');
        SplitJoin(["Bearer", t], ' ');
        assert false;
      }
    }
  }

  /** The module-level `admins` array; usernames stay unique. */
  class AdminStore {
    const crypto: Crypto
    var admins: seq<Admin>

    ghost predicate Valid()
      reads this
    {
      UniqueUsernames(admins)
    }

    /** The store starts with the one built-in account `admin`. */
    constructor (crypto: Crypto)
      ensures this.crypto == crypto
      ensures admins == [Admin("admin", crypto.hash("admin123"))]
      ensures Valid()
    {
      this.crypto := crypto;
      admins := [Admin("admin", crypto.hash("admin123"))];
    }

    /** `addAdmin({username, password})`: refuses a taken username and
        changes nothing; otherwise appends the new account. */
    method AddAdmin(username: string, password: string) returns (r: AddResult)
      requires Valid()
      modifies this
      ensures Valid()
      ensures FindAdmin(old(admins), username).Some? ==> r == AddError(UsernameTaken) && admins == old(admins)
      ensures FindAdmin(old(admins), username).None? ==>
                r == Added && admins == old(admins) + [Admin(username, crypto.hash(password))]
    {
      if FindAdmin(admins, username).Some? {
        r := AddError(UsernameTaken);
      } else {
        var a := Admin(username, crypto.hash(password));
        AppendKeepsUnique(admins, a);
        admins := admins + [a];
        r := Added;
      }
    }

    /** `authenticateAdmin({username, password})` against the current accounts. */
    method AuthenticateAdmin(username: string, password: string) returns (r: AuthResult)
      ensures r == Authenticate(admins, crypto, username, password)
    {
      r := Authenticate(admins, crypto, username, password);
    }
  }
}
