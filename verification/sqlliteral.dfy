/** How PostgreSQL reads a standard single-quoted string literal: the text
    runs to the first quote that is not doubled, and `''` stands for one
    quote. Used to say what the database makes of the equality fragments
    the store builds. */
module SqlLiteral {
  import opened Wrappers

  /** Reads a literal whose opening quote is already consumed. Yields the
      literal's value and the text after its closing quote, or `None` when
      the literal is never closed. */
  function ReadQuoted(t: string): (r: Option<(string, string)>)
    ensures r.Some? ==> |r.value.1| < |t|
  {
    if t == "" then None
    else if t[0] == '\'' then
      if |t| > 1 && t[1] == '\'' then
        match ReadQuoted(t[2..])
        case Some((v, rest)) => Some(("'" + v, rest))
        case None => None
      else Some(("", t[1..]))
    else
      match ReadQuoted(t[1..])
      case Some((v, rest)) => Some(([t[0]] + v, rest))
      case None => None
  }

  /** A quote-free value followed by a closing quote reads back as itself,
      leaving whatever follows the quote, unless that starts with another
      quote. */
  lemma {:induction false} ReadQuotedPlain(v: string, rest: string)
    requires '\'' !in v
    requires rest == "" || rest[0] != '\''
    ensures ReadQuoted(v + "'" + rest) == Some((v, rest))
    decreases |v|
  {
    var t := v + "'" + rest;
    if v == "" {
      assert t == "'" + rest;
      assert t[1..] == rest;
    } else {
      assert t[0] == v[0];
      assert t[1..] == v[1..] + "'" + rest;
      ReadQuotedPlain(v[1..], rest);
      assert [v[0]] + v[1..] == v;
    }
  }
}
