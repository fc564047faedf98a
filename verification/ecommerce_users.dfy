/** users.go (package ecommerce): validation of the sign-up input. Address
    parsing (`net/mail`) is outside the model and enters as the predicate
    `isEmailValid`. */
module EcommerceUsers {
  import opened Errors
  import opened Validation
  import opened GoStrings

  const ErrPasswordTooShort: Error := Formatted("password must be at least 8 bytes long")
  const ErrPasswordTooLong: Error := Formatted("password must not be more than 72 bytes long")
  const ErrEmailMissing: Error := Formatted("email must be provided")
  const ErrEmailTooLong: Error := Formatted("email must not be more than 500 bytes long")
  const ErrEmailInvalid: Error := Formatted("invalid email address")

  datatype UsersInput = UsersInput(email: string, password: string)

  /** The cases of `UsersInput.Validate`, in the order they run. */
  function Checks(u: UsersInput, isEmailValid: string -> bool): seq<Check>
  {
    [ Check(ByteLen(u.password) >= 8, ErrPasswordTooShort),
      Check(ByteLen(u.password) <= 72, ErrPasswordTooLong),
      Check(u.email != "", ErrEmailMissing),
      Check(ByteLen(u.email) < 500, ErrEmailTooLong),
      Check(isEmailValid(u.email), ErrEmailInvalid) ]
  }

  /** `UsersInput.Validate`: nil exactly when the password has 8 to 72
      bytes inclusive, the email 1 to 499 bytes, and the address parses.
      Password checks come first, and the address is only consulted for an
      email that passed both length checks. */
  function Validate(u: UsersInput, isEmailValid: string -> bool): (r: Error)
    ensures r == Nil <==>
      8 <= ByteLen(u.password) <= 72 && 0 < ByteLen(u.email) < 500 && isEmailValid(u.email)
    ensures !(8 <= ByteLen(u.password) <= 72) ==> r in {ErrPasswordTooShort, ErrPasswordTooLong}
    ensures r == ErrPasswordTooShort <==> ByteLen(u.password) < 8
    ensures r == ErrPasswordTooLong <==> ByteLen(u.password) > 72
    ensures 8 <= ByteLen(u.password) <= 72 && u.email == "" ==> r == ErrEmailMissing
    ensures 8 <= ByteLen(u.password) <= 72 && ByteLen(u.email) >= 500 ==> r == ErrEmailTooLong
    ensures r == ErrEmailInvalid <==>
      8 <= ByteLen(u.password) <= 72 && 0 < ByteLen(u.email) < 500 && !isEmailValid(u.email)
  {
    var checks := Checks(u, isEmailValid);
    assert Distinct(checks);
    assert (forall i | 0 <= i < |checks| :: checks[i].ok)
      <==> checks[0].ok && checks[1].ok && checks[2].ok && checks[3].ok && checks[4].ok;
    assert PassBefore(checks, 1) <==> checks[0].ok;
    assert PassBefore(checks, 2) <==> checks[0].ok && checks[1].ok;
    assert PassBefore(checks, 3) <==> checks[0].ok && checks[1].ok && checks[2].ok;
    assert PassBefore(checks, 4) <==> checks[0].ok && checks[1].ok && checks[2].ok && checks[3].ok;
    FirstFailure(checks)
  }

  /** The length checks decide before the address parser: with an empty or
      oversized email, any two address predicates give the same result. */
  lemma AddressParserNotConsulted(u: UsersInput, p: string -> bool, q: string -> bool)
    requires u.email == "" || ByteLen(u.email) >= 500
    ensures Validate(u, p) == Validate(u, q)
  {
  }

  /** The password bounds are inclusive here, unlike the domain sign-up
      check: passwords of exactly 8 and exactly 72 bytes both pass. */
  lemma PasswordBoundsInclusive(email: string, p8: string, p72: string, isEmailValid: string -> bool)
    requires email != "" && ByteLen(email) < 500 && isEmailValid(email)
    requires ByteLen(p8) == 8 && ByteLen(p72) == 72
    ensures Validate(UsersInput(email, p8), isEmailValid) == Nil
    ensures Validate(UsersInput(email, p72), isEmailValid) == Nil
  {
  }

  /** For an ASCII password the byte bounds are character bounds: fewer
      than 8 characters is too short and more than 72 too long, whatever
      the email. */
  lemma AsciiPasswordBounds(u: UsersInput, isEmailValid: string -> bool)
    requires forall i | 0 <= i < |u.password| :: u.password[i] as int < 0x80
    ensures Validate(u, isEmailValid) == ErrPasswordTooShort <==> |u.password| < 8
    ensures Validate(u, isEmailValid) == ErrPasswordTooLong <==> |u.password| > 72
  {
    ByteLenAscii(u.password);
  }
}
