/** The application error of domain/error.go and the small part of Go's
    `errors` package the service leans on. */
module Errors {
  import opened Wrappers
  import opened Decimal
  import opened GoStrings

  // Error codes, mirroring HTTP status codes.
  const EINTERNAL: int := 500
  const ETOOLARGE: int := 413
  const ECONFLICT: int := 409
  const EINVALID: int := 400
  const ENOTFOUND: int := 404
  const EUNAUTHORIZED: int := 401

  /** A Go `error` value.
      - `Nil`: the nil interface.
      - `App`: a `*domain.Error`, shown to users.
      - `Sentinel`: a package-level `errors.New` value; `name` is the Go
        variable, which is what makes two sentinels the same error.
      - `Formatted`: any other leaf error (`fmt.Errorf` without `%w`, a
        driver error), known only by its text.
      - `Wrapped`: `fmt.Errorf("...%w", inner)`, whose text is the prefix
        followed by the inner error's text. */
  datatype Error =
    | Nil
    | App(code: int, message: string)
    | Sentinel(name: string, text: string)
    | Formatted(text: string)
    | Wrapped(prefix: string, inner: Error)

  const AppTextHead: string := "error: code:"
  const AppTextMid: string := " message:"

  /** `(*domain.Error).Error()`. */
  function AppText(code: int, message: string): (s: string)
    ensures HasPrefix(s, AppTextHead)
  {
    AppTextHead + Dec(code) + AppTextMid + message
  }

  /** `err.Error()`. A nil interface only shows up here as the operand of
      `%w`, which `fmt` renders as `%!w(<nil>)`. */
  function Text(e: Error): string
  {
    match e
    case Nil => "%!w(<nil>)"
    case App(code, message) => AppText(code, message)
    case Sentinel(_, text) => text
    case Formatted(text) => text
    case Wrapped(prefix, inner) => prefix + Text(inner)
  }

  /** `errors.Is(e, target)`: `target` is `e` or somewhere down its chain of
      wrapped errors. */
  predicate Is(e: Error, target: Error)
  {
    e == target || (e.Wrapped? && Is(e.inner, target))
  }

  /** `errors.As(e, &appErr)`: the first application error on the chain. */
  function AsApp(e: Error): (r: Option<Error>)
    ensures r.Some? ==> r.value.App? && Is(e, r.value)
    ensures e.App? ==> r == Some(e)
    ensures r.None? ==> forall c, m :: !Is(e, App(c, m))
  {
    match e
    case App(_, _) => Some(e)
    case Wrapped(_, inner) => AsApp(inner)
    case _ => None
  }

  /** `domain.ErrorCode`: 0 for nil, the code of an application error
      anywhere on the chain, and `EINTERNAL` for everything else. */
  function ErrorCode(e: Error): (r: int)
    ensures e == Nil ==> r == 0
    ensures e.App? ==> r == e.code
    ensures e != Nil && (forall c, m :: !Is(e, App(c, m))) ==> r == EINTERNAL
    ensures e != Nil && r != EINTERNAL ==> exists m :: Is(e, App(r, m))
  {
    if e == Nil then 0
    else match AsApp(e)
      case Some(a) => a.code
      case None => EINTERNAL
  }

  /** `domain.ErrorMessage`: "" for nil, the message of an application error
      anywhere on the chain, and a fixed opaque text for everything else. */
  function ErrorMessage(e: Error): (r: string)
    ensures e == Nil ==> r == ""
    ensures e.App? ==> r == e.message
    ensures e != Nil && (forall c, m :: !Is(e, App(c, m))) ==> r == "internal server error"
  {
    if e == Nil then ""
    else match AsApp(e)
      case Some(a) => a.message
      case None => "internal server error"
  }

  /** `domain.Errorf(code, message)` with a message that holds no formatting
      verbs, which is how every caller uses it. */
  function Errorf(code: int, message: string): (r: Error)
    ensures r != Nil
    ensures ErrorCode(r) == code
    ensures ErrorMessage(r) == message
  {
    App(code, message)
  }

  /** Wrapping a non-nil error keeps the code and message the user sees. */
  lemma WrapKeepsCodeAndMessage(prefix: string, e: Error)
    requires e != Nil
    ensures ErrorCode(Wrapped(prefix, e)) == ErrorCode(e)
    ensures ErrorMessage(Wrapped(prefix, e)) == ErrorMessage(e)
  {
  }

  /** The rendered text of an application error determines its code and
      message: the code's digits end at the first space. */
  lemma AppTextInjective(c1: int, m1: string, c2: int, m2: string)
    requires AppText(c1, m1) == AppText(c2, m2)
    ensures c1 == c2 && m1 == m2
  {
    var s := AppText(c1, m1);
    var d1, d2 := Dec(c1), Dec(c2);
    var h := |AppTextHead|;
    assert s == AppTextHead + d1 + AppTextMid + m1;
    assert s == AppTextHead + d2 + AppTextMid + m2;
    assert s[h + |d1|] == ' ';
    assert s[h + |d2|] == ' ';
    assert |d1| == |d2|;
    assert d1 == s[h..h + |d1|] == d2;
    DecInjective(c1, c2);
    assert m1 == s[h + |d1| + |AppTextMid|..] == m2;
  }
}
