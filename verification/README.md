# ecommerce-api core in Dafny

A Dafny model of the request-independent core of the `ecommerce-api` Go
service: the SQL fragment builders the stores splice into their list
queries, the translation of PostgreSQL constraint violations into
application errors, the application error type with its code and message
accessors, the input validators and the create/update functions for
products, categories, carts and users (both the `domain` package and the
older root `ecommerce` package), the merge step of full-text search, and
the two pieces of request parsing in the HTTP layer (integer URL
parameters and the `Authorization` header decision).

Every operation is a pure function over immutable datatypes, except
`PostgresSearch.Search`, a method with loops that has no side effects. Go
pointers that the source mutates in place (`UpdateModel`, `SetValuesTo`)
become functions returning the updated record. Go errors are one datatype,
`Errors.Error`:

- `Nil` is the nil error.
- `App(code, message)` is a `*domain.Error`.
- `Sentinel(name, text)` is a package-level `errors.New` value, identified
  by its Go variable name.
- `Formatted(text)` is an `fmt.Errorf` without `%w`, or a driver error.
- `Wrapped(prefix, inner)` is an `fmt.Errorf` with `%w`.

`errors.Is` and `errors.As` follow the `Wrapped` chain.

Go strings are `seq<char>`. Go's `len` on a string is the UTF-8 byte
count, `GoStrings.ByteLen`. `fmt`'s `%d` is `Decimal.Dec`, and
`strconv.Atoi` is `Decimal.Atoi`, including the 64-bit range check.

Every hand-written `Validate` is a first-failure-wins chain of checks.
`Validation.FirstFailure` states the chain's meaning once:

- it is nil exactly when every check passes;
- otherwise it is the error of the first failing check;
- with pairwise distinct errors, error k is returned exactly when check k
  fails and every earlier check passes.

Each validator lists its checks in source order and inherits these
properties.

Two parameters stand in for code outside the model:

- The token store's `GetUserID` is a function `string -> (int, Error)`.
- `net/mail` address parsing is a predicate `string -> bool`.

Module layout follows the Go packages:

- Shared helpers: `Wrappers`, `GoStrings`, `Decimal`, `GoTime`,
  `Validation`, `SqlLiteral`.
- `domain/error.go`: `Errors`.
- `store/store.go`: `Store`.
- `postgres/postgres.go`: `Postgres`.
- `postgres/search.go`: `PostgresSearch`.
- How the stores order the fragments: `ListQuery`.
- `domain/*.go`: `DomainProduct`, `DomainCategory`, `DomainCart`,
  `DomainUser`, `DomainProducts`, `DomainCategories`, `DomainCarts`.
- Root package: `EcommerceProducts`, `EcommerceCategories`,
  `EcommerceUsers`.
- `http/http.go`: `Http`.

Two behaviours of the code are worth stating plainly:

- Filter values are inlined between single quotes without escaping
  (store/store.go:53). `Store.AndOpValueEscapesLiteral` exhibits a value
  that closes the literal early.
- The update statements (postgres/product.go:134-139) compare no versions.
  `DomainProduct.UpdateModel` and `DomainCategory.UpdateModel` only copy the
  version from the request.

## Model

| member | source | states |
|---|---|---|
| Store.FormatLimitOffset | store/store.go:28-38 | empty exactly when neither limit nor offset is positive; a positive limit gives a LIMIT clause, otherwise a positive offset gives an OFFSET clause |
| Store.FormatLimitOffsetIsPageClauses | store/store.go:29-35 | the result is the LIMIT clause of the positive limit and the OFFSET clause of the positive offset, in that order and space-separated, each carrying the decimal value |
| Store.NonPositiveIsAbsent | store/store.go:29-35 | a non-positive limit (or offset) gives the same text as a zero one |
| Store.FormatSort | store/store.go:42-47 | empty iff the column is empty; otherwise "ORDER BY " followed by exactly the column, unvalidated |
| Store.FormatAndOp | store/store.go:51-56 | empty iff the value is empty; otherwise `AND col='` followed by exactly the value and a closing quote, with no escaping |
| Store.FormatAndIntOp | store/store.go:60-65 | empty iff the value is zero; negative values still give `AND col='` plus the signed decimal and a closing quote |
| Store.EqualityFragmentsAreConjuncts | store/store.go:53 | every non-empty equality fragment, textual or integer, starts with "AND " so any subset can follow `WHERE 1=1` |
| Store.AndOpReadsBack | store/store.go:51-56 | a value without quotes is read back by PostgreSQL's literal syntax as exactly that value, with nothing left over |
| Store.AndOpValueEscapesLiteral | store/store.go:53 | the value `'--` ends the literal at once and leaves `--'` outside it: the value is not escaped |
| Store.AndIntOpReadsBack | store/store.go:60-65 | the integer fragment's literal reads back as the decimal text, which `strconv.Atoi` parses back to the value |
| Store.AndIntOpInjective | store/store.go:60-65 | equal integer fragments for one column come from equal values |
| Postgres.FormatLimitOffset | postgres/postgres.go:69-80 | agrees with the store package's builder on every input |
| Postgres.FormatSort | postgres/postgres.go:83-89 | agrees with the store package's builder on every input |
| Postgres.FormatAndOp | postgres/postgres.go:92-98 | agrees with the store package's builder on every input |
| Postgres.FormatAndIntOp | postgres/postgres.go:101-107 | agrees with the store package's builder on every input |
| Postgres.FormatError | postgres/postgres.go:110-127 | never nil; a changed error is an application error with code EINVALID or ECONFLICT and one of the six translated messages; a message naming carts_user_id_fkey always gives the cart-user translation |
| Postgres.FirstMatch | postgres/postgres.go:112-124 | the index of the first table entry whose constraint occurs in the message, with no earlier entry occurring; none when no entry occurs |
| Postgres.FormatErrorIsFirstMatch | postgres/postgres.go:112-126 | the translation is the one of the first constraint, in the order carts_user, carts_product, products_name, products_category, users_email, categories_name, found in the message; with none found the error is returned unchanged |
| Postgres.CodesFollowConstraintKind | postgres/postgres.go:113-124 | constraints ending in `_key` (unique) map to ECONFLICT and those ending in `_fkey` (foreign key) map to EINVALID |
| Postgres.NoUnderscorePassesThrough | postgres/postgres.go:125-126 | an error whose text has no underscore, and so names no constraint, is returned unchanged |
| Postgres.MessagesHaveNoUnderscore | postgres/postgres.go:114-124 | no translated message contains an underscore |
| Postgres.TranslatedTextHasNoUnderscore | domain/error.go:25-27 | the rendered text of a translated error contains no underscore, so names no constraint |
| Postgres.FormatErrorIdempotent | postgres/postgres.go:110-127 | translating an already translated error changes nothing |
| Errors.AppText | domain/error.go:25-27 | the rendering of an application error starts with "error: code:" |
| Errors.AppTextInjective | domain/error.go:25-27 | the rendering determines both the code and the message |
| Errors.AsApp | domain/error.go:34 | finds an application error on the wrap chain when there is one, and the error itself when it is one; none means no application error is on the chain |
| Errors.ErrorCode | domain/error.go:30-39 | 0 for nil; the code of an application error; EINTERNAL when no application error is on the chain; any other code comes from an application error on the chain |
| Errors.ErrorMessage | domain/error.go:42-51 | "" for nil; the message of an application error; "internal server error" when no application error is on the chain |
| Errors.Errorf | domain/error.go:54-59 | non-nil, and ErrorCode and ErrorMessage give back the code and message it was built from |
| Errors.WrapKeepsCodeAndMessage | domain/error.go:34-35 | wrapping a non-nil error with `%w` keeps its code and message |
| Validation.FirstFailure | domain/product.go:86-98 | nil iff every check passes; otherwise the error of some failing check with all earlier ones passing; with distinct errors, error k iff check k fails and all before it pass |
| DomainProduct.ValidateCreate | domain/product.go:85-99 | nil iff name and description are non-empty and quantity, price and category id non-zero; each error exactly when its check is the first to fail, in the order name, description, quantity, price, category id; negative numbers pass |
| DomainProduct.CreateModel | domain/product.go:102-110 | copies the five input fields, leaves id, version and timestamps zero, and a validated input gives a well-formed product |
| DomainProduct.ValidateUpdate | domain/product.go:113-129 | nil iff every present field is non-empty or non-zero and the version is non-zero; a zero version is always an error; each of the name, description, quantity, price, category and version errors is returned exactly when its check is the first to fail, in that order |
| DomainProduct.UpdateModel | domain/product.go:132-154 | each present field overwrites its own field, absent fields stay, id and timestamps never change, and the version becomes the update's version |
| DomainProduct.UpdateModelIdempotent | domain/product.go:132-154 | applying the same update twice equals applying it once |
| DomainProduct.UpdateModelAbsent | domain/product.go:132-153 | an update with every field absent changes only the version |
| DomainProduct.ValidUpdateKeepsWellFormed | domain/product.go:113-154 | a validated update keeps a well-formed product well-formed |
| DomainCategory.ValidateCreate | domain/category.go:74-82 | nil iff name and description are non-empty; a missing name is reported first; the description error exactly when it is the first failure |
| DomainCategory.CreateModel | domain/category.go:85-90 | copies name and description, leaves id, version and timestamps zero, and a validated input gives a well-formed category |
| DomainCategory.ValidateUpdate | domain/category.go:93-101 | nil iff no present field is empty; an all-absent update passes; the name error exactly when a present name is empty, the description error exactly when the name passes and a present description is empty; the version is never checked |
| DomainCategory.UpdateModel | domain/category.go:104-114 | present fields overwrite, absent ones stay, id and timestamps never change, and the version becomes the update's version |
| DomainCategory.UpdateModelIdempotent | domain/category.go:104-114 | applying the same update twice equals applying it once |
| DomainCategory.ValidUpdateKeepsWellFormed | domain/category.go:93-114 | a validated update keeps a well-formed category well-formed |
| DomainCart.ValidateCreate | domain/cart.go:69-79 | nil iff user id, product id and quantity are all non-zero; each error exactly when its check is the first to fail, in the order user id, product id, quantity; the quantity failure is the product package's quantity error; negative values pass |
| DomainCart.CreateModel | domain/cart.go:82-88 | copies product id, quantity and user id and leaves the id zero; a validated input gives a well-formed cart |
| DomainCart.ValidateUpdate | domain/cart.go:91-99 | nil iff no present field is zero, so an all-absent update passes; the product-id error exactly when a present product id is zero, the quantity error exactly when the product id passes and a present quantity is zero |
| DomainCart.UpdateModel | domain/cart.go:102-110 | id and user id never change; present fields overwrite and absent ones stay |
| DomainCart.UpdateModelIdempotent | domain/cart.go:102-110 | applying the same update twice equals applying it once |
| DomainCart.ValidUpdateKeepsWellFormed | domain/cart.go:91-110 | a validated update keeps a well-formed cart well-formed |
| DomainCart.QuantityErrorShared | domain/cart.go:75-76 | a cart with valid ids and zero quantity gets the very error value that any product create with a name, a description and zero quantity gets |
| DomainUser.ValidateCreate | domain/user.go:75-91 | nil iff the email has 1 to 499 bytes and contains '@' and the password has strictly between 8 and 72 bytes; email failures come before every password check; an email of 500 bytes or more reports "too long" even without '@'; each of the six errors (email required, too long, invalid; password required, too small, too long) is returned exactly when its check is the first to fail, in that order |
| DomainUser.PasswordBoundsExclusive | domain/user.go:85-88 | with a valid email, an 8-byte password is too small and a 72-byte one too long |
| DomainUser.LongEmailStaysTooLong | domain/user.go:79-80 | lengthening an email of 500 bytes or more by any text still reports "too long", whatever the password |
| DomainUser.AsciiPasswordBounds | domain/user.go:85-88 | with a valid email, an ASCII password passes exactly when it has 9 to 71 characters |
| DomainUser.CreateModel | domain/user.go:75-99 | stores the supplied hash as the password, copies the email and leaves the id zero; a validated input gives a user whose email has 1 to 499 bytes and an `@` |
| DomainUser.ValidateLogin | domain/user.go:102-110 | nil iff email and password are non-empty; the email is checked first |
| DomainProducts.CreateModel | domain/products.go:70-78 | copies name, description, category, price and quantity and leaves id and timestamps zero |
| DomainProducts.UpdateModel | domain/products.go:87-107 | each present field overwrites its own field, id and timestamps never change, and an all-absent update changes nothing |
| DomainProducts.UpdateModelIdempotent | domain/products.go:87-107 | applying the same update twice equals applying it once |
| DomainProducts.PriceOnlyChangesPrice | domain/products.go:88-106 | an update carrying only a price changes only the price |
| DomainProducts.FullUpdateMatchesCreate | domain/products.go:70-107 | an update carrying every field of a create input turns any product into the created one, apart from its id and timestamps |
| DomainCategories.CreateModel | domain/categories.go:67-72 | copies name and description and leaves id and timestamps zero |
| DomainCategories.UpdateModel | domain/categories.go:81-89 | a present field overwrites only its own field; id and timestamps never change; an all-absent update changes nothing |
| DomainCategories.UpdateModelIdempotent | domain/categories.go:81-89 | applying the same update twice equals applying it once |
| DomainCategories.CreateModelAgreesWithCategory | domain/categories.go:67-72 | the same texts give the same id, texts and timestamps as the versioned category's create |
| DomainCategories.FullUpdateMatchesCreate | domain/categories.go:67-89 | an update carrying both texts of a create input turns any category into the created one, apart from its id and timestamps |
| DomainCarts.CreateModel | domain/carts.go:67-73 | copies product id, quantity and user id and leaves the id zero |
| DomainCarts.UpdateModel | domain/carts.go:82-90 | id and user id never change; present fields overwrite and absent ones stay |
| DomainCarts.UpdateModelIdempotent | domain/carts.go:82-90 | applying the same update twice equals applying it once |
| DomainCarts.CreateModelAgreesWithCart | domain/carts.go:67-73 | the same input gives the same id and fields as the validated cart's create |
| DomainCarts.FullUpdateMatchesCreate | domain/carts.go:67-90 | an update carrying the product and quantity of a create input turns any cart of the same owner into the created one, apart from its id |
| EcommerceProducts.Validate | products.go:54-67 | nil iff name and category are non-empty and price and quantity are non-negative; each error exactly when its check is the first to fail, in the order name, category, price, quantity |
| EcommerceProducts.DescriptionIgnored | products.go:55-64 | the description never affects the result |
| EcommerceProducts.SetValuesTo | products.go:70-90 | present fields overwrite their own field; id and timestamps never change |
| EcommerceProducts.SetValuesToIdempotent | products.go:70-90 | applying the same input twice equals applying it once |
| EcommerceProducts.ValidateFilter | products.go:92-94 | always nil |
| EcommerceCategories.Validate | categories.go:47-55 | nil iff name and description are non-empty; the name is reported first |
| EcommerceCategories.SetValuesTo | categories.go:58-66 | present fields overwrite their own field; id and timestamps never change |
| EcommerceCategories.SetValuesToIdempotent | categories.go:58-66 | applying the same input twice equals applying it once |
| EcommerceCategories.SetValuesToKeepsValid | categories.go:47-66 | an input with no empty present field keeps a valid category valid |
| EcommerceCategories.ValidateFilter | categories.go:68-70 | always nil |
| EcommerceUsers.Validate | users.go:33-48 | nil iff the password has 8 to 72 bytes inclusive, the email 1 to 499 bytes, and the address parses; password checks come before email checks, the too-short error exactly below 8 bytes and the too-long error exactly above 72; the invalid-address error exactly when only the parse fails |
| EcommerceUsers.AddressParserNotConsulted | users.go:39-44 | an empty or oversized email is rejected whatever the address parser says |
| EcommerceUsers.PasswordBoundsInclusive | users.go:35-38 | passwords of exactly 8 and exactly 72 bytes both pass |
| EcommerceUsers.AsciiPasswordBounds | users.go:35-38 | an ASCII password is too short exactly below 8 characters and too long exactly above 72 |
| PostgresSearch.Search | postgres/search.go:26-50 | fails with sql.ErrNoRows iff both hit lists are empty; otherwise the category hits, in order, followed by the product hits, in order, each entry with exactly one of its two fields set |
| Http.QueryGet | http/http.go:190 | the first value of a present parameter, "" for an absent one or one with no values |
| Http.ParseIntQuery | http/http.go:185-191 | an absent parameter gives 0 with no error; a present one gives `strconv.Atoi` of its value, so a present but empty value is a syntax error |
| Http.ParseIntQueryRoundTrip | http/http.go:185-191 | a parameter holding the decimal text of a 64-bit integer parses back to that integer |
| Http.AuthDecision | http/http.go:201-212 | an empty header passes through; a header without the substring "Bearer" is malformed; otherwise the token is the header with one leading "Bearer " removed, or the whole header when that prefix is missing |
| Http.BearerHeaderLooksUpToken | http/http.go:212 | "Bearer " followed by a token looks up exactly that token |
| Http.EmbeddedBearerUsedWhole | http/http.go:207-212 | "xBearer" is not malformed and is looked up whole |
| Http.Authenticate | http/http.go:199-229 | an empty header continues without a user; a malformed header is a 400 with the malformed-header text; a user is attached only after a successful lookup; a 400 invalid-token reply only comes from a lookup error that is the invalid-token error |
| Http.LookupOutcome | http/http.go:214-227 | a successful lookup continues with the user id; an invalid-token error, wrapped or not, gives 400; any other error gives 500 with its own text |
| Http.WrappedInvalidTokenIsClientError | http/http.go:216-218 | an invalid-token error wrapped with `%w` is still reported as 400 |
| Decimal.Dec | store/store.go:62 | the `%d` text: a minus sign exactly for negative numbers, digits everywhere else |
| Decimal.DecInjective | store/store.go:62 | distinct integers have distinct `%d` texts |
| Decimal.Atoi | http/http.go:190 | succeeds iff the text is an optional sign and at least one digit, and the value fits in 64 bits, and then the value is the signed digits; the empty string is a syntax error |
| Decimal.AtoiDec | http/http.go:190 | parsing the `%d` text of any 64-bit integer gives it back |
| GoStrings.TrimPrefix | http/http.go:212 | removes the prefix when present, so prefix and result rebuild the input; otherwise returns the input |
| GoStrings.ByteLen | users.go:35-41 | the UTF-8 byte length: at least the character count, at most four times it, zero only for "" |
| GoStrings.ContainsChar | domain/user.go:81 | a one-character substring occurs exactly when the character does |
| SqlLiteral.ReadQuotedPlain | store/store.go:53 | a quote-free value followed by a closing quote is read as that value, and the reader stops right after the quote |
| ListQuery.ProductList | postgres/users.go:96-100 | the product list fragments in corrected order, conditions then sort then pagination, are well ordered for every filter |
| ListQuery.UserList | postgres/users.go:96-100 | the user store's fragments are well ordered for every filter |
| ListQuery.ProductListAsWrittenMisorders | postgres/product.go:96-101 | sorting by name while filtering by name puts a condition after ORDER BY |
| ListQuery.UnsortedListUnchanged | postgres/product.go:96-101 | without a sort column the written order and the corrected order send the same fragments |

## Left out

- The store files that run SQL through pgx transactions (product, category, cart, user and token stores): their behaviour lives in PostgreSQL. Only the order in which the list queries splice the fragments is modelled, in `ListQuery`.
- `fullSearch` and the `log.Fatal` after a failing search query: the full-text query runs in the database. `PostgresSearch.Search` takes the two hit lists as inputs.
- HTTP routing, JSON encoding, the handlers, the server lifecycle and the request context: plumbing through chi and net/http. `Http.Authenticate` returns the response decision and does not write a response.
- The token store and token generation, which use randomness, SHA-256 and clocks. The lookup is a function parameter of `Http.Authenticate`.
- bcrypt hashing: `DomainUser.CreateModel` takes the hash as a parameter.
- `net/mail` address parsing: it is the predicate parameter of `EcommerceUsers.Validate`.
- The validator-library `Validate` methods of the plural domain types: struct tags drive them, and that library is not part of this model.
- Connection-pool setup, migrations, entry points and the integration tests.
- Timestamps are opaque `GoTime.Time` values; Go's zero time is the constant `GoTime.Zero`.
- Go's `int` is 64 bits wide, and the model uses unbounded integers. No modelled operation does arithmetic on ids, prices or quantities, so nothing can wrap. The 64-bit range matters only in `Decimal.Atoi`, which checks it.
- Strings are sequences of code points, so invalid UTF-8 cannot be represented. `GoStrings.ByteLen` gives the UTF-8 length of valid text.
- Errors.Errorf: takes the already formatted message; `fmt` verbs in the format string are not interpreted.
- Errors.Text: renders the formatted and wrapped errors from their stored texts; it does not reproduce `fmt`'s handling of other verbs.
- Decimal.Atoi: the `*strconv.NumError` keeps the input and the error kind, not its quoted text, and the value returned beside an error is not modelled.
- Sentinel errors compare by their Go variable name. Two distinct `errors.New` values with equal text stay distinct, and `errQuantityRequired`, which product and cart share, is one value.
- Postgres.FormatError: requires a non-nil error, because the Go code calls `err.Error()` and panics on nil.

## Findings

| source | as written | input that shows it | evidently intended | confidence | as-written member | corrected member |
|---|---|---|---|---|---|---|
| postgres/product.go:96-101 | the product list query places `ORDER BY` before the `AND` conditions; the category and cart list queries do the same | Sort "name" with Name "x": `WHERE 1=1 ORDER BY name AND name='x'`: the condition becomes part of the sort key instead of the WHERE clause, and PostgreSQL rejects `AND` on a text column | conditions first, then the sort, then LIMIT/OFFSET, as the user store does at postgres/users.go:96-100 | high, not executed | ListQuery.ProductListAsWrittenMisorders | ListQuery.ProductList |
