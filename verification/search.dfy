/** The merge step of `SearchStore.Search` (postgres/search.go) over the
    result type of domain/search.go. The two full-text queries are not
    modelled: their hit lists are the inputs. */
module PostgresSearch {
  import opened Wrappers
  import opened Errors
  import DomainProduct
  import DomainCategory

  /** `sql.ErrNoRows`. */
  const ErrNoRows: Error := Sentinel("sql.ErrNoRows", "sql: no rows in result set")

  /** `domain.Search`: a result entry with two pointer fields, of which the
      search fills exactly one. */
  datatype SearchResult = SearchResult(products: Option<DomainProduct.Product>, categories: Option<DomainCategory.Category>)

  /** Exactly one of the two fields is set. */
  predicate Tagged(s: SearchResult)
  {
    s.products.Some? != s.categories.Some?
  }

  function CategoryHit(c: DomainCategory.Category): SearchResult
  {
    SearchResult(None, Some(c))
  }

  function ProductHit(p: DomainProduct.Product): SearchResult
  {
    SearchResult(Some(p), None)
  }

  /** `SearchStore.Search` after both queries succeeded: every category hit,
      then every product hit, each wrapped in its own entry, in the order
      the database returned them; no hit at all is the no-rows error. */
  method Search(categories: seq<DomainCategory.Category>, products: seq<DomainProduct.Product>)
    returns (r: Result<seq<SearchResult>, Error>)
    ensures r.Failure? <==> categories == [] && products == []
    ensures r.Failure? ==> r.error == ErrNoRows
    ensures r.Success? ==> |r.value| == |categories| + |products|
    ensures r.Success? ==> forall i | 0 <= i < |categories| :: r.value[i] == CategoryHit(categories[i])
    ensures r.Success? ==> forall j | 0 <= j < |products| ::
      r.value[|categories| + j] == ProductHit(products[j])
    ensures r.Success? ==> forall k | 0 <= k < |r.value| :: Tagged(r.value[k])
    ensures r.Success? ==> forall i, j | 0 <= i < |r.value| && 0 <= j < |r.value| ::
      r.value[i].categories.Some? && r.value[j].products.Some? ==> i < j
  {
    var results: seq<SearchResult> := [];
    var i := 0;
    while i < |categories|
      invariant 0 <= i <= |categories|
      invariant |results| == i
      invariant forall k | 0 <= k < i :: results[k] == CategoryHit(categories[k])
    {
      results := results + [CategoryHit(categories[i])];
      i := i + 1;
    }
    var j := 0;
    while j < |products|
      invariant 0 <= j <= |products|
      invariant |results| == |categories| + j
      invariant forall k | 0 <= k < |categories| :: results[k] == CategoryHit(categories[k])
      invariant forall k | 0 <= k < j :: results[|categories| + k] == ProductHit(products[k])
    {
      results := results + [ProductHit(products[j])];
      j := j + 1;
    }
    if |results| == 0 {
      return Failure(ErrNoRows);
    }
    assert forall k | 0 <= k < |results| ::
      (k < |categories| && results[k] == CategoryHit(categories[k]))
      || (k >= |categories| && results[k] == ProductHit(products[k - |categories|]));
    return Success(results);
  }
}
