/** postgres/postgres.go: the package's own copies of the fragment builders
    and `FormatError`, which turns driver errors that name a database
    constraint into application errors. */
module Postgres {
  import opened Wrappers
  import opened GoStrings
  import opened Decimal
  import opened Errors
  import Store

  function FormatLimitOffset(limit: int, offset: int): (r: string)
    ensures r == Store.FormatLimitOffset(limit, offset)
  {
    if limit > 0 && offset > 0 then "LIMIT " + Dec(limit) + " OFFSET " + Dec(offset)
    else if limit > 0 then "LIMIT " + Dec(limit)
    else if offset > 0 then "OFFSET " + Dec(offset)
    else ""
  }

  function FormatSort(v: string): (r: string)
    ensures r == Store.FormatSort(v)
  {
    if v != "" then "ORDER BY " + v else ""
  }

  function FormatAndOp(s: string, v: string): (r: string)
    ensures r == Store.FormatAndOp(s, v)
  {
    if v != "" then "AND " + s + "='" + v + "'" else ""
  }

  function FormatAndIntOp(s: string, v: int): (r: string)
    ensures r == Store.FormatAndIntOp(s, v)
  {
    if v != 0 then "AND " + s + "='" + Dec(v) + "'" else ""
  }

  /** One row of the constraint dispatch: a constraint name and the
      application error reported when a driver error mentions it. */
  datatype Translation = Translation(constraint: string, code: int, message: string)

  const CartUserMessage: string := "carts's user must matches a valid user"
  const CartProductMessage: string := "carts's product must matches a valid product"
  const DuplicatedProductMessage: string := "duplicated products are not allowed"
  const ProductCategoryMessage: string := "product's category must matches a valid category"
  const DuplicatedEmailMessage: string := "duplicated email are not allowed"
  const DuplicatedCategoryMessage: string := "duplicated categories are not allowed"

  const TranslatedMessages: set<string> := {
    CartUserMessage, CartProductMessage, DuplicatedProductMessage,
    ProductCategoryMessage, DuplicatedEmailMessage, DuplicatedCategoryMessage
  }

  /** The dispatch, in the order the checks run. */
  const Translations: seq<Translation> := [
    Translation("carts_user_id_fkey", EINVALID, CartUserMessage),
    Translation("carts_product_id_fkey", EINVALID, CartProductMessage),
    Translation("products_name_key", ECONFLICT, DuplicatedProductMessage),
    Translation("products_category_fkey", EINVALID, ProductCategoryMessage),
    Translation("users_email_key", ECONFLICT, DuplicatedEmailMessage),
    Translation("categories_name_key", ECONFLICT, DuplicatedCategoryMessage)
  ]

  /** `FormatError`. Go would panic on a nil error (it calls `err.Error()`),
      so callers only pass real errors. */
  function FormatError(err: Error): (r: Error)
    requires err != Nil
    ensures r != Nil
    ensures r != err ==> r.App? && (r.code == EINVALID || r.code == ECONFLICT)
    ensures r != err ==> r.message in TranslatedMessages
    ensures Contains(Text(err), "carts_user_id_fkey") ==> r == App(EINVALID, CartUserMessage)
  {
    var message := Text(err);
    if Contains(message, "carts_user_id_fkey") then Errorf(EINVALID, CartUserMessage)
    else if Contains(message, "carts_product_id_fkey") then Errorf(EINVALID, CartProductMessage)
    else if Contains(message, "products_name_key") then Errorf(ECONFLICT, DuplicatedProductMessage)
    else if Contains(message, "products_category_fkey") then Errorf(EINVALID, ProductCategoryMessage)
    else if Contains(message, "users_email_key") then Errorf(ECONFLICT, DuplicatedEmailMessage)
    else if Contains(message, "categories_name_key") then Errorf(ECONFLICT, DuplicatedCategoryMessage)
    else err
  }

  /** The first row of `table` whose constraint `message` mentions. */
  function FirstMatch(message: string, table: seq<Translation>): (r: Option<nat>)
    ensures r.Some? ==> r.value < |table| && Contains(message, table[r.value].constraint)
    ensures r.Some? ==> forall j | 0 <= j < r.value :: !Contains(message, table[j].constraint)
    ensures r.None? ==> forall j | 0 <= j < |table| :: !Contains(message, table[j].constraint)
  {
    if table == [] then None
    else if Contains(message, table[0].constraint) then Some(0)
    else match FirstMatch(message, table[1..])
      case Some(k) => Some(k + 1)
      case None => None
  }

  /** `FormatError` is the first-match lookup in the dispatch table: the
      earliest constraint the message names decides, and an error naming
      none passes through untouched. */
  lemma FormatErrorIsFirstMatch(err: Error)
    requires err != Nil
    ensures match FirstMatch(Text(err), Translations)
      case Some(k) => FormatError(err) == App(Translations[k].code, Translations[k].message)
      case None => FormatError(err) == err
  {
    var m := Text(err);
    var t := Translations;
    assert t[0].constraint == "carts_user_id_fkey";
    assert t[1].constraint == "carts_product_id_fkey";
    assert t[2].constraint == "products_name_key";
    assert t[3].constraint == "products_category_fkey";
    assert t[4].constraint == "users_email_key";
    assert t[5].constraint == "categories_name_key";
    var r := FirstMatch(m, t);
    if r.Some? {
      var k := r.value;
      if k >= 1 { assert !Contains(m, t[0].constraint); }
      if k >= 2 { assert !Contains(m, t[1].constraint); }
      if k >= 3 { assert !Contains(m, t[2].constraint); }
      if k >= 4 { assert !Contains(m, t[3].constraint); }
      if k >= 5 { assert !Contains(m, t[4].constraint); }
    } else {
      assert !Contains(m, t[0].constraint);
      assert !Contains(m, t[1].constraint);
      assert !Contains(m, t[2].constraint);
      assert !Contains(m, t[3].constraint);
      assert !Contains(m, t[4].constraint);
      assert !Contains(m, t[5].constraint);
    }
  }

  /** Unique-key constraints (named `..._key`) become conflicts and
      foreign-key constraints (named `..._fkey`) become invalid input. */
  lemma CodesFollowConstraintKind()
    ensures forall i | 0 <= i < |Translations| ::
      (Translations[i].code == ECONFLICT <==> !HasSuffix(Translations[i].constraint, "_fkey"))
    ensures forall i | 0 <= i < |Translations| ::
      (Translations[i].code == EINVALID <==> HasSuffix(Translations[i].constraint, "_fkey"))
  {
  }

  /** An error whose text has no underscore names no constraint, so it
      passes through unchanged. */
  lemma NoUnderscorePassesThrough(err: Error)
    requires err != Nil
    requires '_' !in Text(err)
    ensures FormatError(err) == err
  {
    var m := Text(err);
    ContainsNeedsChar(m, "carts_user_id_fkey", '_');
    ContainsNeedsChar(m, "carts_product_id_fkey", '_');
    ContainsNeedsChar(m, "products_name_key", '_');
    ContainsNeedsChar(m, "products_category_fkey", '_');
    ContainsNeedsChar(m, "users_email_key", '_');
    ContainsNeedsChar(m, "categories_name_key", '_');
  }

  /** None of the translated messages has an underscore. */
  lemma MessagesHaveNoUnderscore(m: string)
    requires m in TranslatedMessages
    ensures '_' !in m
  {
    if m == CartUserMessage {
      CartUserMessageNoUnderscore();
    } else if m == CartProductMessage {
      CartProductMessageNoUnderscore();
    } else if m == ProductCategoryMessage {
      ProductCategoryMessageNoUnderscore();
    }
  }

  lemma CartUserMessageNoUnderscore()
    ensures '_' !in CartUserMessage
  {
    var x, y := "carts's user", " must matches a valid user";
    assert CartUserMessage == x + y;
  }

  lemma CartProductMessageNoUnderscore()
    ensures '_' !in CartProductMessage
  {
    var x, y := "carts's product", " must matches a valid product";
    assert CartProductMessage == x + y;
  }

  lemma ProductCategoryMessageNoUnderscore()
    ensures '_' !in ProductCategoryMessage
  {
    var x, y, z := "product's category", " must matches", " a valid category";
    assert ProductCategoryMessage == x + y + z;
  }

  /** The text of a translated error has no underscore. */
  lemma TranslatedTextHasNoUnderscore(r: Error)
    requires r.App?
    requires r.message in TranslatedMessages
    ensures '_' !in Text(r)
  {
    var d := Dec(r.code);
    assert '_' !in d by {
      forall i | 0 <= i < |d|
        ensures d[i] != '_'
      {
      }
    }
    MessagesHaveNoUnderscore(r.message);
    assert Text(r) == AppTextHead + d + AppTextMid + r.message;
  }

  /** No translated text names a constraint, so translating twice is the
      same as translating once. */
  lemma FormatErrorIdempotent(err: Error)
    requires err != Nil
    ensures FormatError(FormatError(err)) == FormatError(err)
  {
    var r := FormatError(err);
    if r != err {
      TranslatedTextHasNoUnderscore(r);
      NoUnderscorePassesThrough(r);
    }
  }
}
