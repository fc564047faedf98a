/** How the stores splice the fragments of `Store` after `WHERE 1=1` when
    listing rows. In PostgreSQL's SELECT grammar the WHERE condition comes
    before ORDER BY, which comes before LIMIT and OFFSET; an `AND ...`
    written after `ORDER BY col` extends the sort expression instead of the
    condition. The product, category and cart stores emit the sort fragment
    first; the user store emits it after the conditions. */
module ListQuery {
  import opened GoStrings
  import Store

  /** Where a non-empty fragment belongs: 0 for a condition, 1 for the sort,
      2 for pagination. */
  function Rank(f: string): nat
  {
    if HasPrefix(f, Store.AndKeyword) then 0
    else if HasPrefix(f, Store.OrderBy) then 1
    else 2
  }

  /** The non-empty fragments appear in the order the grammar demands. */
  predicate WellOrdered(frags: seq<string>)
  {
    forall i, j | 0 <= i < j < |frags| && frags[i] != "" && frags[j] != "" :: Rank(frags[i]) <= Rank(frags[j])
  }

  /** The fragments that actually reach the database, in order. */
  function NonEmpty(frags: seq<string>): seq<string>
  {
    if frags == [] then []
    else if frags[0] == "" then NonEmpty(frags[1..])
    else [frags[0]] + NonEmpty(frags[1..])
  }

  /** The equality conditions of the product list: category, name, id. */
  function ProductConditions(category: string, name: string, id: int): seq<string>
  {
    [Store.FormatAndOp("category", category), Store.FormatAndOp("name", name), Store.FormatAndIntOp("id", id)]
  }

  /** The product store's list query as written: sort, then conditions,
      then pagination. */
  function ProductListAsWritten(sort: string, category: string, name: string, id: int, limit: int, offset: int): seq<string>
  {
    [Store.FormatSort(sort)] + ProductConditions(category, name, id) + [Store.FormatLimitOffset(limit, offset)]
  }

  /** The order the user store already uses: conditions, then sort, then
      pagination. */
  function ProductList(sort: string, category: string, name: string, id: int, limit: int, offset: int): (frags: seq<string>)
    ensures WellOrdered(frags)
  {
    var conds := ProductConditions(category, name, id);
    ConditionsRankFirst(category, name, id);
    SortRanksSecond(sort);
    PageRanksLast(limit, offset);
    conds + [Store.FormatSort(sort)] + [Store.FormatLimitOffset(limit, offset)]
  }

  /** The user store's list query as written: conditions, sort, pagination. */
  function UserList(sort: string, email: string, id: int, limit: int, offset: int): (frags: seq<string>)
    ensures WellOrdered(frags)
  {
    EqualityRank("email", email);
    IntEqualityRank("id", id);
    SortRanksSecond(sort);
    PageRanksLast(limit, offset);
    [ Store.FormatAndOp("email", email), Store.FormatAndIntOp("id", id),
      Store.FormatSort(sort), Store.FormatLimitOffset(limit, offset) ]
  }

  lemma EqualityRank(column: string, v: string)
    ensures Store.FormatAndOp(column, v) != "" ==> Rank(Store.FormatAndOp(column, v)) == 0
  {
  }

  lemma IntEqualityRank(column: string, v: int)
    ensures Store.FormatAndIntOp(column, v) != "" ==> Rank(Store.FormatAndIntOp(column, v)) == 0
  {
  }

  lemma ConditionsRankFirst(category: string, name: string, id: int)
    ensures forall i | 0 <= i < 3 && ProductConditions(category, name, id)[i] != "" ::
      Rank(ProductConditions(category, name, id)[i]) == 0
  {
    EqualityRank("category", category);
    EqualityRank("name", name);
    IntEqualityRank("id", id);
  }

  lemma SortRanksSecond(v: string)
    ensures Store.FormatSort(v) != "" ==> Rank(Store.FormatSort(v)) == 1
  {
    if v != "" {
      var f := Store.FormatSort(v);
      assert f[0] == 'O';
      assert !HasPrefix(f, Store.AndKeyword);
    }
  }

  lemma PageRanksLast(limit: int, offset: int)
    ensures Store.FormatLimitOffset(limit, offset) != "" ==> Rank(Store.FormatLimitOffset(limit, offset)) == 2
  {
    var f := Store.FormatLimitOffset(limit, offset);
    if f != "" {
      assert f[0] == 'L' || (f[0] == 'O' && f[1] == 'F');
      assert !HasPrefix(f, Store.AndKeyword);
      assert !HasPrefix(f, Store.OrderBy);
    }
  }

  /** As written, a sorted list filtered by name puts the condition after
      ORDER BY, so the name test becomes part of the sort key. */
  lemma ProductListAsWrittenMisorders()
    ensures !WellOrdered(ProductListAsWritten("name", "", "x", 0, 0, 0))
  {
    var frags := ProductListAsWritten("name", "", "x", 0, 0, 0);
    assert frags[0] == "ORDER BY name";
    assert frags[2] == "AND name='x'";
    SortRanksSecond("name");
    assert Rank(frags[0]) == 1;
    assert HasPrefix(frags[2], Store.AndKeyword);
  }

  /** Without a sort the fix changes nothing the database sees. */
  lemma UnsortedListUnchanged(category: string, name: string, id: int, limit: int, offset: int)
    ensures NonEmpty(ProductListAsWritten("", category, name, id, limit, offset))
      == NonEmpty(ProductList("", category, name, id, limit, offset))
  {
    var c := ProductConditions(category, name, id);
    var p := Store.FormatLimitOffset(limit, offset);
    var a := ProductListAsWritten("", category, name, id, limit, offset);
    var b := ProductList("", category, name, id, limit, offset);
    assert a == [""] + c + [p];
    assert b == c + [""] + [p];
    assert NonEmpty(a) == NonEmpty(c + [p]) by {
      assert a[1..] == c + [p];
    }
    NonEmptyAppendBlank(c, [p]);
  }

  /** Dropping a blank fragment from the middle changes nothing. */
  lemma {:induction false} NonEmptyAppendBlank(a: seq<string>, b: seq<string>)
    ensures NonEmpty(a + [""] + b) == NonEmpty(a + b)
    decreases |a|
  {
    if a == [] {
      assert a + [""] + b == [""] + b;
      assert ([""] + b)[1..] == b;
      assert a + b == b;
    } else {
      assert (a + [""] + b)[1..] == a[1..] + [""] + b;
      assert (a + b)[1..] == a[1..] + b;
      NonEmptyAppendBlank(a[1..], b);
    }
  }
}
