/** The query-fragment builders of store/store.go. Each turns one filter
    value into a piece of SQL text that the stores splice after
    `WHERE 1=1`; a fragment is empty when its parameter is absent. */
module Store {
  import opened Wrappers
  import opened GoStrings
  import opened Decimal
  import opened SqlLiteral

  const AndKeyword: string := "AND "
  const OrderBy: string := "ORDER BY "

  /** `FormatLimitOffset`: a LIMIT clause for a positive limit, an OFFSET
      clause for a positive offset, both separated by a space, or nothing. */
  function FormatLimitOffset(limit: int, offset: int): (r: string)
    ensures r == "" <==> limit <= 0 && offset <= 0
    ensures limit > 0 ==> HasPrefix(r, "LIMIT ")
    ensures limit <= 0 && offset > 0 ==> HasPrefix(r, "OFFSET ")
  {
    if limit > 0 && offset > 0 then "LIMIT " + Dec(limit) + " OFFSET " + Dec(offset)
    else if limit > 0 then "LIMIT " + Dec(limit)
    else if offset > 0 then "OFFSET " + Dec(offset)
    else ""
  }

  /** The pagination clauses a limit and an offset call for, in order. */
  function PageClauses(limit: int, offset: int): seq<string>
  {
    (if limit > 0 then ["LIMIT " + Dec(limit)] else [])
    + (if offset > 0 then ["OFFSET " + Dec(offset)] else [])
  }

  /** Words separated by single spaces. */
  function JoinSpaced(words: seq<string>): string
  {
    if words == [] then ""
    else if |words| == 1 then words[0]
    else words[0] + " " + JoinSpaced(words[1..])
  }

  /** The switch of `FormatLimitOffset` agrees with the clause-by-clause
      reading: each positive parameter contributes its own clause. */
  lemma FormatLimitOffsetIsPageClauses(limit: int, offset: int)
    ensures FormatLimitOffset(limit, offset) == JoinSpaced(PageClauses(limit, offset))
  {
    var cs := PageClauses(limit, offset);
    if limit > 0 && offset > 0 {
      assert cs == ["LIMIT " + Dec(limit), "OFFSET " + Dec(offset)];
      assert cs[1..] == ["OFFSET " + Dec(offset)];
    }
  }

  /** A non-positive limit is the same as no limit, and a non-positive
      offset the same as no offset. */
  lemma NonPositiveIsAbsent(limit: int, offset: int)
    ensures limit <= 0 ==> FormatLimitOffset(limit, offset) == FormatLimitOffset(0, offset)
    ensures offset <= 0 ==> FormatLimitOffset(limit, offset) == FormatLimitOffset(limit, 0)
  {
  }

  /** `FormatSort`: an ORDER BY on the given column, inlined as is. */
  function FormatSort(v: string): (r: string)
    ensures r == "" <==> v == ""
    ensures v != "" ==> HasPrefix(r, OrderBy) && TrimPrefix(r, OrderBy) == v
  {
    if v != "" then OrderBy + v else ""
  }

  /** Everything of an equality fragment up to and including the opening
      quote of its literal. */
  function AndHead(column: string): string
  {
    AndKeyword + column + "='"
  }

  /** `FormatAndOp`: an equality test of `column` against the string `v`,
      with `v` placed between quotes unescaped. */
  function FormatAndOp(column: string, v: string): (r: string)
    ensures r == "" <==> v == ""
    ensures v != "" ==> HasPrefix(r, AndHead(column)) && TrimPrefix(r, AndHead(column)) == v + "'"
  {
    if v != "" then AndKeyword + column + "='" + v + "'" else ""
  }

  /** `FormatAndIntOp`: an equality test of `column` against the decimal
      text of `v`; every non-zero value, negative ones included, filters. */
  function FormatAndIntOp(column: string, v: int): (r: string)
    ensures r == "" <==> v == 0
    ensures v != 0 ==> HasPrefix(r, AndHead(column)) && TrimPrefix(r, AndHead(column)) == Dec(v) + "'"
  {
    if v != 0 then AndKeyword + column + "='" + Dec(v) + "'" else ""
  }

  /** Every non-empty equality fragment is an `AND` condition, so any
      selection of them may follow `WHERE 1=1`. */
  lemma EqualityFragmentsAreConjuncts(column: string, s: string, n: int)
    ensures FormatAndOp(column, s) != "" ==> HasPrefix(FormatAndOp(column, s), AndKeyword)
    ensures FormatAndIntOp(column, n) != "" ==> HasPrefix(FormatAndIntOp(column, n), AndKeyword)
  {
  }

  /** For a quote-free value, the database reads back exactly that value
      as the literal and nothing after it. */
  lemma AndOpReadsBack(column: string, v: string)
    requires v != ""
    requires '\'' !in v
    ensures ReadQuoted(TrimPrefix(FormatAndOp(column, v), AndHead(column))) == Some((v, ""))
  {
    ReadQuotedPlain(v, "");
    assert v + "'" + "" == v + "'";
  }

  /** The value is not escaped: `'--` closes the literal early and turns
      the rest of the line into a comment. */
  lemma AndOpValueEscapesLiteral(column: string)
    ensures ReadQuoted(TrimPrefix(FormatAndOp(column, "'--"), AndHead(column))) == Some(("", "--'"))
  {
    var t := TrimPrefix(FormatAndOp(column, "'--"), AndHead(column));
    assert t == "'--'";
    assert t[1..] == "--'";
  }

  /** The literal of an integer fragment reads back as text that
      `strconv.Atoi` turns into the same number, so the fragment compares
      the column with exactly `v`. */
  lemma AndIntOpReadsBack(column: string, v: int)
    requires v != 0
    requires IsInt64(v)
    ensures ReadQuoted(TrimPrefix(FormatAndIntOp(column, v), AndHead(column))) == Some((Dec(v), ""))
    ensures Atoi(Dec(v)) == Success(v)
  {
    assert '\'' !in Dec(v) by {
      forall i | 0 <= i < |Dec(v)|
        ensures Dec(v)[i] != '\''
      {
      }
    }
    ReadQuotedPlain(Dec(v), "");
    assert Dec(v) + "'" + "" == Dec(v) + "'";
    AtoiDec(v);
  }

  /** Different values give different integer fragments. */
  lemma AndIntOpInjective(column: string, a: int, b: int)
    requires FormatAndIntOp(column, a) == FormatAndIntOp(column, b)
    ensures a == b
  {
    if a != 0 && b != 0 {
      var t := TrimPrefix(FormatAndIntOp(column, a), AndHead(column));
      assert Dec(a) == t[..|t| - 1] == Dec(b);
      DecInjective(a, b);
    }
  }
}
