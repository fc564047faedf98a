/** domain/user.go: the user record, the sign-up and login inputs and
    their validation. Lengths are Go string lengths, in bytes. */
module DomainUser {
  import opened Errors
  import opened Validation
  import opened GoStrings

  const ErrEmailRequired: Error := Sentinel("errEmailRequired", "email is required")
  const ErrEmailTooLong: Error := Sentinel("errEmailTooLong", "email length too long")
  const ErrEmailInvalid: Error := Sentinel("errEmailInvalid", "email in not valid")
  const ErrPasswordRequired: Error := Sentinel("errPasswordRequired", "password is required")
  const ErrPasswordTooSmall: Error := Sentinel("errPasswrodTooSmall", "password length too small")
  const ErrPasswordTooLong: Error := Sentinel("errPasswordTooLong", "password length too long")

  const MaxEmailBytes: nat := 500
  const MinPasswordBytes: nat := 8
  const MaxPasswordBytes: nat := 72

  /** A stored user; `password` holds the hash, never the plaintext. */
  datatype User = User(id: int, email: string, password: seq<byte>)

  datatype UserCreate = UserCreate(email: string, password: string)

  datatype UserLogin = UserLogin(email: string, password: string)

  /** The email errors, all of which outrank any password error. */
  const EmailErrors: set<Error> := {ErrEmailRequired, ErrEmailTooLong, ErrEmailInvalid}

  /** The cases of `UserCreate.Validate`, in the order they run. */
  function CreateChecks(u: UserCreate): seq<Check>
  {
    [ Check(u.email != "", ErrEmailRequired),
      Check(ByteLen(u.email) < MaxEmailBytes, ErrEmailTooLong),
      Check(Contains(u.email, "@"), ErrEmailInvalid),
      Check(u.password != "", ErrPasswordRequired),
      Check(ByteLen(u.password) > MinPasswordBytes, ErrPasswordTooSmall),
      Check(ByteLen(u.password) < MaxPasswordBytes, ErrPasswordTooLong) ]
  }

  /** `UserCreate.Validate`: nil exactly when the email has between 1 and
      499 bytes and an `@`, and the password has strictly between 8 and 72
      bytes. Every email check runs before every password check. */
  function ValidateCreate(u: UserCreate): (r: Error)
    ensures r == Nil <==>
      1 <= ByteLen(u.email) < MaxEmailBytes && '@' in u.email
      && MinPasswordBytes < ByteLen(u.password) < MaxPasswordBytes
    ensures !(1 <= ByteLen(u.email) < MaxEmailBytes && '@' in u.email) ==> r in EmailErrors
    ensures ByteLen(u.email) >= MaxEmailBytes ==> r == ErrEmailTooLong
    ensures r == ErrEmailRequired <==> u.email == ""
    ensures r == ErrEmailTooLong <==> u.email != "" && ByteLen(u.email) >= MaxEmailBytes
    ensures r == ErrEmailInvalid <==> u.email != "" && ByteLen(u.email) < MaxEmailBytes && '@' !in u.email
    ensures r == ErrPasswordRequired <==>
      u.email != "" && ByteLen(u.email) < MaxEmailBytes && '@' in u.email && u.password == ""
    ensures u.email != "" && ByteLen(u.email) < MaxEmailBytes && '@' in u.email ==>
      (r == ErrPasswordTooSmall <==> 0 < ByteLen(u.password) <= MinPasswordBytes)
    ensures u.email != "" && ByteLen(u.email) < MaxEmailBytes && '@' in u.email ==>
      (r == ErrPasswordTooLong <==> ByteLen(u.password) >= MaxPasswordBytes)
  {
    var checks := CreateChecks(u);
    ContainsChar(u.email, '@');
    assert Distinct(checks);
    assert (forall i | 0 <= i < |checks| :: checks[i].ok)
      <==> checks[0].ok && checks[1].ok && checks[2].ok && checks[3].ok && checks[4].ok && checks[5].ok;
    assert PassBefore(checks, 1) <==> checks[0].ok;
    assert PassBefore(checks, 2) <==> checks[0].ok && checks[1].ok;
    assert PassBefore(checks, 3) <==> checks[0].ok && checks[1].ok && checks[2].ok;
    assert PassBefore(checks, 4) <==> checks[0].ok && checks[1].ok && checks[2].ok && checks[3].ok;
    assert PassBefore(checks, 5)
      <==> checks[0].ok && checks[1].ok && checks[2].ok && checks[3].ok && checks[4].ok;
    FirstFailure(checks)
  }

  /** The byte bounds are exclusive: an 8-byte password is too small and a
      72-byte one too long. */
  lemma PasswordBoundsExclusive(email: string, p8: string, p72: string)
    requires email != "" && ByteLen(email) < MaxEmailBytes && '@' in email
    requires ByteLen(p8) == 8 && ByteLen(p72) == 72
    ensures ValidateCreate(UserCreate(email, p8)) == ErrPasswordTooSmall
    ensures ValidateCreate(UserCreate(email, p72)) == ErrPasswordTooLong
  {
  }

  /** Lengthening an email that is already too long keeps it too long,
      whatever the password. */
  lemma LongEmailStaysTooLong(email: string, extra: string, password: string)
    requires ByteLen(email) >= MaxEmailBytes
    ensures ValidateCreate(UserCreate(email + extra, password)) == ErrEmailTooLong
  {
    ByteLenAppend(email, extra);
  }

  /** For an ASCII password the byte bounds are character bounds: with a
      valid email it passes exactly when it has 9 to 71 characters. */
  lemma AsciiPasswordBounds(email: string, password: string)
    requires email != "" && ByteLen(email) < MaxEmailBytes && '@' in email
    requires forall i | 0 <= i < |password| :: password[i] as int < 0x80
    ensures ValidateCreate(UserCreate(email, password)) == Nil <==> 8 < |password| < 72
  {
    ByteLenAscii(password);
  }

  /** A stored user whose email meets the sign-up rules. */
  predicate WellFormed(u: User)
  {
    1 <= ByteLen(u.email) < MaxEmailBytes && '@' in u.email
  }

  /** `UserCreate.CreateModel`: the email and the supplied password hash,
      with a zero id; a validated input gives a well-formed user. */
  function CreateModel(u: UserCreate, hash: seq<byte>): (r: User)
    ensures r.id == 0 && r.email == u.email && r.password == hash
    ensures ValidateCreate(u) == Nil ==> WellFormed(r)
  {
    User(0, u.email, hash)
  }

  /** The cases of `UserLogin.Validate`, in the order they run. */
  function LoginChecks(u: UserLogin): seq<Check>
  {
    [ Check(u.email != "", ErrEmailRequired),
      Check(u.password != "", ErrPasswordRequired) ]
  }

  /** `UserLogin.Validate`: only presence is checked, email first. */
  function ValidateLogin(u: UserLogin): (r: Error)
    ensures r == Nil <==> u.email != "" && u.password != ""
    ensures u.email == "" ==> r == ErrEmailRequired
    ensures r == ErrPasswordRequired <==> u.email != "" && u.password == ""
  {
    var checks := LoginChecks(u);
    assert Distinct(checks);
    assert (forall i | 0 <= i < |checks| :: checks[i].ok) <==> checks[0].ok && checks[1].ok;
    assert PassBefore(checks, 1) <==> checks[0].ok;
    FirstFailure(checks)
  }
}
