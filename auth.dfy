/** The login and session rules (src/contexts/AuthContext.tsx): an email is
    accepted when it ends in the institutional domain, the user record is
    derived from the email alone, and the session is kept in the browser's
    key-value store under `reduc_user`. */
module Auth {
  import opened Types
  import Points

  const Domain := "@uc.cl"
  const AdminEmail := "admin@uc.cl"
  const SessionKey := "reduc_user"

  /** `s.endsWith(suffix)`. */
  predicate EndsWith(s: string, suffix: string)
  {
    |suffix| <= |s| && s[|s| - |suffix|..] == suffix
  }

  /** `EndsWith` holds exactly of the strings made by putting something in
      front of the suffix. */
  lemma EndsWithIff(s: string, suffix: string)
    ensures EndsWith(s, suffix) <==> exists p :: s == p + suffix
  {
    if EndsWith(s, suffix) {
      assert s == s[..|s| - |suffix|] + suffix;
    }
    forall p | s == p + suffix
      ensures EndsWith(s, suffix)
    {
      assert s[|p|..] == suffix;
    }
  }

  /** `s.split(c)[0]`: the text before the first `c`, or all of `s` when it has
      none. */
  function BeforeFirst(s: string, c: char): (r: string)
    ensures |r| <= |s| && r == s[..|r|]
    ensures c !in r
    ensures |r| < |s| ==> s[|r|] == c
  {
    if s == [] then []
    else if s[0] == c then []
    else [s[0]] + BeforeFirst(s[1..], c)
  }

  /** The user record the mock login builds. */
  function MockUser(email: string): Usuario
  {
    Usuario("1", email, BeforeFirst(email, '@'), email == AdminEmail)
  }

  /** The outcome of `login`; the password is not an input of it. */
  function LoginResult(email: string): Option<Usuario>
  {
    if EndsWith(email, Domain) then Some(MockUser(email)) else None
  }

  /** An accepted login yields the user with id "1", the given email, the
      text before the first '@' as display name, and the admin flag exactly
      for `admin@uc.cl`. */
  lemma LoginAccepted(email: string)
    requires EndsWith(email, Domain)
    ensures LoginResult(email).Some?
    ensures var u := LoginResult(email).value;
      && u.id == "1" && u.email == email
      && |u.nombre| < |email| && email[..|u.nombre|] == u.nombre && email[|u.nombre|] == '@'
      && '@' !in u.nombre
      && (u.isAdmin <==> email == AdminEmail)
  {
    assert email[|email| - 6..][0] == '@';
    assert '@' in email;
    assert email[..|email|] == email;
  }

  /** The admin flag is set for `admin@uc.cl` and for no other login. */
  lemma AdminOnlyExact(email: string)
    ensures (LoginResult(email).Some? && LoginResult(email).value.isAdmin) <==> email == AdminEmail
  {
    if email == AdminEmail {
      assert AdminEmail == "admin" + Domain;
      EndsWithIff(AdminEmail, Domain);
    }
  }

  /** Every accepted login has the same id, so all users share one pair of
      ledger records. */
  lemma SharedLedgerKeys(e1: string, e2: string)
    requires LoginResult(e1).Some? && LoginResult(e2).Some?
    ensures LoginResult(e1).value.id == LoginResult(e2).value.id
    ensures Points.PointsKey(LoginResult(e1).value.id) == Points.PointsKey(LoginResult(e2).value.id)
    ensures Points.CuponesKey(LoginResult(e1).value.id) == Points.CuponesKey(LoginResult(e2).value.id)
  {
  }

  /** The session key is none of the ledger's keys, so the two providers never
      overwrite each other's records in the shared store. */
  lemma SessionKeySeparate(id: string)
    ensures SessionKey != Points.PointsKey(id) && SessionKey != Points.CuponesKey(id)
  {
    assert SessionKey[0] == 'r';
    assert Points.PointsKey(id)[0] == 'p' && Points.CuponesKey(id)[0] == 'c';
  }

  /** The user a stored session restores, if any. */
  function Restore(storage: map<string, Stored>): Option<Usuario>
  {
    if SessionKey in storage && storage[SessionKey].StoredUser? then Some(storage[SessionKey].u) else None
  }

  class AuthProvider {
    var user: Option<Usuario>
    var storage: map<string, Stored>

    /** The session in the store is always the current user. */
    ghost predicate Valid()
      reads this
    {
      user == Restore(storage)
    }

    /** Mounting: the user is restored from the saved session if there is one. */
    constructor (storage0: map<string, Stored>)
      ensures Valid()
      ensures storage == storage0 && user == Restore(storage0)
    {
      storage := storage0;
      user := Restore(storage0);
    }

    /** `login(email, password)`. */
    method Login(email: string, password: string) returns (ok: bool)
      requires Valid()
      modifies this
      ensures Valid()
      ensures ok <==> EndsWith(email, Domain)
      ensures !ok ==> user == old(user) && storage == old(storage)
      ensures ok ==> user == LoginResult(email) && storage == old(storage)[SessionKey := StoredUser(MockUser(email))]
      ensures ok ==> IsAuthenticated()
      ensures !ok ==> IsAuthenticated() == old(IsAuthenticated())
    {
      if !EndsWith(email, Domain) {
        return false;
      }
      var u := MockUser(email);
      user := Some(u);
      storage := storage[SessionKey := StoredUser(u)];
      ok := true;
    }

    /** `logout()`. */
    method Logout()
      requires Valid()
      modifies this
      ensures Valid()
      ensures user == None && storage == old(storage) - {SessionKey}
      ensures !IsAuthenticated()
    {
      user := None;
      storage := storage - {SessionKey};
    }

    /** `isAuthenticated`. */
    function IsAuthenticated(): (b: bool)
      reads this
      ensures b <==> user.Some?
    {
      user.Some?
    }
  }
}
