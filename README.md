# Catalog browser: account bookkeeping, product store and catalog paging

This project models in Dafny the logic of a client-side product catalog
application (React with a Redux store) that is not user interface:

- **Accounts over local storage** (`Accounts`, `Signup`, `Login`, `Profile`).
  Local storage is a `Storage` object with two entries: the `users` list
  (absent or a list of user records) and the `loggedInUser` session.
  - Signup rejects an email that is already stored. Otherwise it drops the
    oldest record once five are stored, appends the new record with its
    password encrypted, and logs the new user in.
  - Login looks up the first record with the email and compares the decrypted
    password. Only on success does it write the session.
  - The profile page overlays the edited fields onto every record with the
    session's email and merges them into the session.
  - The AES cipher is a foreign library. It is a `Cipher` value passed as a
    parameter. Its round-trip law `RoundTrips` is a precondition where a
    property needs it.
- **Product store** (`ProductSlice`).
  - The URL the product-list request goes to, with its precedence: search
    text, then category, then the plain listing.
  - The catch block all three request thunks share, which turns a failure
    into `{status, message, errors}`.
  - A `ProductStore` class with three payloads and three status slots. The
    pending, fulfilled and rejected cases and `reset` are its methods.
- **Catalog page** (`Catalog`).
  - The page's paging state as a `CatalogPage` class.
  - The `skip` of the request and the page count `ceil(total / limit)`.
  - The defaults the page reads the list payload with.
  - The per-product favourite toggle.

The store's methods keep one invariant, `ProductSlice.Consistent`: an idle
or failed slot holds its empty payload.

`Wrappers` holds `Option`. `Js` holds JSON values, JavaScript truthiness and
`String(...)` conversion, which the error path needs.

## Notes on the code

- The idle status is the empty string `""`, not `"idle"`.
- A `users` entry that is not valid JSON makes `JSON.parse` throw. It is not
  read as the empty list. Signup and the profile page do not catch that
  exception; login's catch block turns it into its generic error.
- The catch block's last fallback for the message is the error's own text
  (`error.toString()`). `'Error occurred'` only appears when a non-200
  answer has no message, because the thunk throws an `Error` with it.
- An answer other than 200 reaches the catch block through an `Error` that
  has no response. Its status therefore becomes 410 and its `errors` the empty
  string, whatever the server sent.
- Signup drops index 0 even when that record is the logged-in user.
- The profile update checks no uniqueness, so two records can end up sharing
  an email (`Profile.UpdateCanDuplicateEmail`).

## Model

| member | source | states |
|---|---|---|
| `Accounts.Storage.StoredUsers` | src/pages/Signup.jsx:34-37 | `getUsersFromLocalStorage` (the same helper is in src/pages/Login.jsx:22-25 and src/pages/Profile.jsx:50-53): an absent `users` key reads as the empty list, a present one as the stored list |
| `Accounts.Storage.SetUsers` | src/pages/Signup.jsx:39-41 | `setUsersToLocalStorage` replaces the stored list wholesale and does not touch the session |
| `Accounts.Storage.SetSession` | src/pages/Signup.jsx:30-32 | `setLoggedInUserToLocalStorage` of signup and login (also src/pages/Login.jsx:27-29) stores the record as the session and does not touch the users list |
| `Accounts.FirstWithEmail` | src/pages/Login.jsx:51 | `users.find` by email: the index found holds the email, no earlier record holds it, and there is no result exactly when no record holds it |
| `Signup.Registered` | src/pages/Signup.jsx:73-76 | the list stored after signup: with five or more records index 0 is dropped and the length is unchanged, otherwise the length grows by one; the new record is last; the survivors keep their order |
| `Signup.SignupKeepsRegistry` | src/pages/Signup.jsx:66-76 | from at most five records with unique emails, signing up a fresh email keeps at most five records with unique emails |
| `Signup.SixthUserEvictsOldest` | src/pages/Signup.jsx:73-76 | with five records stored, a sixth distinct user evicts exactly the first record and the list stays five long |
| `Signup.NewUser` | src/pages/Signup.jsx:71-72 | the new record copies first name, last name, email and mobile from the form and holds `encrypt(password)` as its password |
| `Signup.NewUserPasswordRecoverable` | src/pages/Signup.jsx:71-72 | the stored password is the encryption of the typed one, so with a round-tripping cipher it decrypts back to it |
| `Signup.OnSubmit` | src/pages/Signup.jsx:63-78 | a stored email yields `Email already exists` on the email field and writes nothing; otherwise the users entry becomes `Registered(old list, new record)`, where the new record copies the four fields and holds `encrypt(password)`, and the session becomes that new record |
| `Signup.FormValid` | src/pages/Signup.jsx:13-28 | the signup schema: every field present, the mobile ten ASCII digits, the password at least six UTF-16 code units (so at least three characters) and the confirmation equal to it |
| `Signup.Submit` | src/pages/Signup.jsx:13-28 | the submit handler runs only when every field is present, the mobile is ten ASCII digits, the password is at least six UTF-16 code units long and the confirmation equals it; otherwise nothing is written |
| `Login.Authenticate` | src/pages/Login.jsx:50-59 | the record checked is the first with the email; no match gives `NoSuchEmail`; success happens exactly when that record's password decrypts to the typed one, and yields the record unchanged with its encrypted password; a decryption that throws is told apart |
| `Login.FirstRecordDecides` | src/pages/Login.jsx:51 | a later record with the same email does not change the login result |
| `Login.FirstWithEmailPrefix` | src/pages/Login.jsx:51 | appending records after a match does not move the first match |
| `Login.ErrorFor` | src/pages/Login.jsx:52-66 | every failed check ends in a non-empty field error; it sits on the password field exactly for a wrong password, and on the email field for an unknown email or a decryption that throws |
| `Login.OnSubmit` | src/pages/Login.jsx:47-67 | the session is written with the matched record exactly when the check passes; otherwise it is unchanged and the field error is `Email does not exist`, `Incorrect password`, or the catch block's `An error occurred while logging in`; the users list is never written |
| `Login.FormValid` | src/pages/Login.jsx:13-20 | the login schema: email present and password at least six UTF-16 code units, which for text inside the Basic Multilingual Plane is six characters and in general at least three |
| `Login.AstralPasswordAccepted` | src/pages/Login.jsx:17-19 | `.min(6)` counts UTF-16 code units: three characters outside the Basic Multilingual Plane pass, five ASCII characters do not |
| `Login.Submit` | src/pages/Login.jsx:13-20 | values failing the login schema (email required, password of six UTF-16 code units or more) never reach `onSubmit` and leave the session unchanged |
| `Login.SignupThenLogin` | src/pages/Login.jsx:56-57 | with a round-tripping cipher, a user just signed up passes the login schema and logs in with the same email and plain text password, which yields exactly the new record |
| `Profile.FormValid` | src/pages/Profile.jsx:8-17 | the profile schema: names and email present, the mobile ten ASCII digits |
| `Profile.Overlay` | src/pages/Profile.jsx:42 | `{ ...user, ...updatedData }` takes first name, last name, email and mobile from the edit and keeps the record's password |
| `Profile.OverlayMatching` | src/pages/Profile.jsx:41-43 | the updated list has the same length and order; records with the session's original email get the edit overlaid; all other records are unchanged; no record loses its password |
| `Profile.MergedSession` | src/pages/Profile.jsx:60-61 | the new session carries the four edited fields and the old session's password; with no session at write time the merge starts from an empty object and has no password |
| `Profile.SetLoggedInUser` | src/pages/Profile.jsx:59-63 | the session is re-read at write time and replaced by the merge |
| `Profile.OnSubmit` | src/pages/Profile.jsx:39-45 | the users entry becomes the overlaid list keyed on the render-time session email, then the session becomes the merge |
| `Profile.Visit` | src/pages/Profile.jsx:21-27 | without a session the page redirects and writes nothing; a form failing the schema writes nothing; otherwise the users list and the session both get the edit |
| `Profile.UpdateKeepsUniqueEmails` | src/pages/Profile.jsx:41-43 | if the new email is the old one or is unused, the stored emails stay unique |
| `Profile.UpdateCanDuplicateEmail` | src/pages/Profile.jsx:39-45 | there is no uniqueness check: from two records with distinct emails, a valid update can leave two records sharing an email |
| `ProductSlice.RouteFor` | src/store/Slices/productSlice.js:13-15 | a non-empty `q` selects search; an empty `q` with a non-empty category selects the category endpoint; otherwise the plain listing |
| `ProductSlice.QueryString` | src/store/Slices/productSlice.js:7-12 | the serialised parameters start with `skip=` and contain only query-safe characters besides the `=` and `&` delimiters |
| `ProductSlice.QueryStringReadsBack` | src/store/Slices/productSlice.js:7-12 | for every `skip`, `limit` and search text, a server that splits the query on `&` and `=` and form-decodes the values reads back exactly `skip`, `limit` and `q` |
| `ProductSlice.QueryParams` | src/store/Slices/productSlice.js:7-12 | the raw values under the keys `skip`, `limit` and `q` are the decimal spellings of the numbers and the form-encoded search text |
| `ProductSlice.QueryStringPieces` | src/store/Slices/productSlice.js:7-12 | the query string splits on `&` into exactly the three pieces `skip=…`, `limit=…` and `q=…`, whatever the search text |
| `ProductSlice.ListUrl` | src/store/Slices/productSlice.js:13-15 | the URL lies below `base/`; the search and listing URLs end in `?` followed by the query string, the category URL ends in the raw category; the length of each URL is the base, the endpoint path (`/search/?`, `/?` or `/category/`) and the query string or category, so with `ListUrlRoute` nothing else lies between them |
| `ProductSlice.FormEncode` | src/store/Slices/productSlice.js:12 | `URLSearchParams` writes the search text with query-safe characters only (no `&`, `=`, `#` or space), and unreserved text unchanged |
| `ProductSlice.FormRoundTrip` | src/store/Slices/productSlice.js:12 | form decoding (`+` to space, `%XY` to a byte, then UTF-8) of the encoded text gives the text back, for every string |
| `ProductSlice.FormEncodeInjective` | src/store/Slices/productSlice.js:12 | two different search texts are never written the same way |
| `ProductSlice.DecodeEncodeBytes` | src/store/Slices/productSlice.js:12 | the byte-level percent encoding decodes back to the same bytes |
| `ProductSlice.Utf8RoundTrip` | src/store/Slices/productSlice.js:12 | the UTF-8 bytes of a string decode back to the string |
| `ProductSlice.QueryHasThreeParams` | src/store/Slices/productSlice.js:7-12 | whatever the search text, the query string has exactly the two `&` separators of `skip`, `limit` and `q` |
| `ProductSlice.ListUrlRoute` | src/store/Slices/productSlice.js:13-15 | the URL's path names the endpoint the precedence rule chose: `/search/?`, `/category/` or `/?` below the base |
| `ProductSlice.SearchIgnoresCategory` | src/store/Slices/productSlice.js:13-14 | with a non-empty `q` the URL is the search URL whatever the category |
| `ProductSlice.CategoryIgnoresPaging` | src/store/Slices/productSlice.js:15 | with an empty `q` and a category the URL is `/category/{category}` and carries no skip or limit |
| `ProductSlice.ErrorText` | src/store/Slices/productSlice.js:27 | `error.toString()`: empty exactly when name and message are both empty; it starts with the name and ends with the message |
| `ProductSlice.Normalise` | src/store/Slices/productSlice.js:26-30 | status is the response's, or 410 without a response; `errors` is the body's `errors` when present and not null, else `''` (with or without a response); the message is the body's truthy `message`, else the error's non-empty message, else `ErrorText` of the error; the message is falsy only when all of those are empty |
| `ProductSlice.Settle` | src/store/Slices/productSlice.js:18-30 | a thunk fulfils exactly on a 200 answer, with the body as payload; a thrown request error is rejected with its normalised value |
| `ProductSlice.NonOkAnswerRejected` | src/store/Slices/productSlice.js:19-28 | an answer other than 200 is rejected with status 410 and `errors` `''`, with the server's string message or `'Error occurred'`; a truthy non-string message is converted by `String(...)`, and one that converts to `''` (an empty array) falls back to the error's text `'Error'` |
| `ProductSlice.ServerMessage` | src/store/Slices/productSlice.js:22 | `response.data.message` when it is present and truthy, and nothing otherwise |
| `ProductSlice.ProductStore.constructor` | src/store/Slices/productSlice.js:70-79 | `initialState`: payloads `[]`, `[]`, `{}` and all three statuses `""` |
| `ProductSlice.ProductStore.Reset` | src/store/Slices/productSlice.js:85 | from any state the store is exactly `initialState` again |
| `ProductSlice.ProductStore.DetailPending` | src/store/Slices/productSlice.js:89-91 | only the detail status changes, to `"loading"` |
| `ProductSlice.ProductStore.DetailFulfilled` | src/store/Slices/productSlice.js:92-95 | the detail payload is replaced by the action's and its status is `"succeeded"`; nothing else changes |
| `ProductSlice.ProductStore.DetailRejected` | src/store/Slices/productSlice.js:96-99 | the detail payload is reset to `{}` and its status is `"failed"`; nothing else changes |
| `ProductSlice.ProductStore.CategoryPending` | src/store/Slices/productSlice.js:100-102 | only the category status changes, to `"loading"` |
| `ProductSlice.ProductStore.CategoryFulfilled` | src/store/Slices/productSlice.js:103-106 | the categories payload is replaced and its status is `"succeeded"`; nothing else changes |
| `ProductSlice.ProductStore.CategoryRejected` | src/store/Slices/productSlice.js:107-110 | the categories payload is reset to `[]` and its status is `"failed"`; nothing else changes |
| `ProductSlice.ProductStore.ListPending` | src/store/Slices/productSlice.js:111-113 | only the list status changes, to `"loading"` |
| `ProductSlice.ProductStore.ListFulfilled` | src/store/Slices/productSlice.js:114-117 | the list payload is replaced and its status is `"succeeded"`; nothing else changes |
| `ProductSlice.ProductStore.ListRejected` | src/store/Slices/productSlice.js:118-121 | the list payload is reset to `[]` and its status is `"failed"`; nothing else changes |
| `Js.Utf16Length` | src/pages/Signup.jsx:23 | `value.length` of the password: between one and two code units per character, and exactly one per character when no character lies outside the Basic Multilingual Plane |
| `Js.Utf16LengthConcat` | src/pages/Signup.jsx:23 | the UTF-16 length of a concatenation is the sum of the lengths |
| `Js.NatToString` | src/store/Slices/productSlice.js:12 | `String(n)` of `skip` and `limit`: at least one decimal digit and no leading zero |
| `Js.DecimalRoundTrip` | src/store/Slices/productSlice.js:12 | the decimal spelling of `skip` and `limit` in the query string reads back as the same number |
| `Js.IntToString` | src/store/Slices/productSlice.js:23 | `String(n)` of an integer: a leading `-` exactly for negatives, followed by digits that read back as the magnitude |
| `Js.StringOf` | src/store/Slices/productSlice.js:23 | `String(...)` that `new Error(message)` applies: `null`, `true`/`false`, the decimal spelling of the model's integers, strings unchanged, `[object Object]` for objects, `''` for an empty array, the element's string for a one-element array (`''` for `[null]`), and a comma for longer arrays |
| `Js.StringOfArray` | src/store/Slices/productSlice.js:23 | `String(...)` of an array of two or more elements is the first element's string (`''` for `null`), a comma, and `String(...)` of the rest: the elements' strings joined by commas |
| `Js.JoinShift` | src/store/Slices/productSlice.js:23 | the join from index `i` on depends only on the elements from `i` on |
| `Catalog.Skip` | src/pages/Product.jsx:41 | `(currentPage - 1) * limit` is a whole number of pages: divided by the limit it gives `currentPage - 1` with no remainder, and page 1 starts at 0 |
| `Catalog.PageCount` | src/pages/Product.jsx:163 | `Math.ceil(total / limit)` is the least whole number of pages holding `total` products |
| `Catalog.PageCountOfThirtyFive` | src/pages/Product.jsx:163 | 35 products at 10 per page make 4 pages |
| `Catalog.PagesCoverResults` | src/pages/Product.jsx:41 | for each page size the select offers (10, 20, 30), every page the pager offers has `skip = (page - 1) * limit` inside the results; pages before the last are full and the last holds the rest |
| `Catalog.ProductsOf` | src/pages/Product.jsx:27 | `products` is the payload's truthy `products`; when it is missing or falsy, or the payload is not an object (the initial `[]`), it is `[]` |
| `Catalog.TotalOf` | src/pages/Product.jsx:28 | `total` is the payload's truthy `total`; when it is missing or falsy, or the payload is not an object, it is 0 |
| `Catalog.Toggle` | src/pages/Product.jsx:48-53 | the entry for the clicked id becomes the negation of its old truth value, a missing entry counting as false; every other entry is kept |
| `Catalog.ToggleTwice` | src/pages/Product.jsx:48-53 | clicking the same id twice restores its truth value and leaves the others alone |
| `Catalog.CatalogPage.constructor` | src/pages/Product.jsx:20-24 | the page starts at page 1 with limit 30, no category, no search text and no favourites |
| `Catalog.CatalogPage.ListRequest` | src/pages/Product.jsx:41 | the list request carries the page's limit, category and search text, and a skip that is the current page minus one times the limit |
| `Catalog.CatalogPage.HandlePagination` | src/pages/Product.jsx:44-46 | only the current page changes |
| `Catalog.CatalogPage.HandleHeartClick` | src/pages/Product.jsx:48-53 | only the favourite map changes, by `Toggle` |
| `Catalog.CatalogPage.HandleLimitChange` | src/pages/Product.jsx:55-58 | only the limit changes, to one of 10, 20 or 30; the current page is not reset |
| `Catalog.CatalogPage.SetCategory` | src/pages/Product.jsx:113 | only the category changes; the current page is not reset |
| `Catalog.CatalogPage.SetProductFilter` | src/pages/Product.jsx:79 | only the search text changes; the current page is not reset |

## Left out

- Network I/O and the async machinery of `createAsyncThunk`. The answer of `axios.get` is an input of `ProductSlice.Settle`. The order in which concurrent requests settle is not modelled; any sequence of store method calls is allowed.
- axios's status validation. By default axios throws for answers outside 200-299, carrying the response. `ProductSlice.Settle` takes any answer, or any thrown error with or without a response, as its input.
- The category-list and detail request URLs (`/category-list`, `/{id}`). They are fixed concatenations with no choice in them.
- The configured API base URL. It is the `base` parameter.
- Floating-point numbers. JSON numbers are unbounded integers in `Js.Json`, and `String(...)` of a non-integer is not modelled. The rounding `JSON.parse` applies to integers above 2^53 is not modelled either, nor the exponent form `String(...)` uses from 10^21 on (`"1e+21"`); `Js.IntToString` and `Js.StringOf` always give the plain decimal spelling.
- The API server. `ProductSlice.FormDecode` and `ProductSlice.QueryParam` are a reference reader of the query string. They refuse text the encoder never writes, where a real server may replace it.
- Unpaired UTF-16 surrogates in the search text. Dafny strings hold Unicode scalar values, so the replacement `URLSearchParams` makes for them is not modelled.
- `Catalog.PageCount`: takes an integer total. A payload `total` that is truthy but not a number is not turned into a page count. The catalog API always sends a number.
- The AES cipher itself. `Accounts.Cipher` takes its place, and the round-trip law is a precondition, never an axiom.
- JSON (de)serialisation and the local-storage API. The code reads the `users` entry with `JSON.parse`, which throws on a malformed entry; the model has no malformed entry. Treating a parse failure as the empty list is not what the code does.
- `Signup.Submit`: does not check the email format, because the schema's email check is a library regular expression that is not part of this model. Its "required" checks are non-emptiness.
- `Signup.FormValid`: the same, since it is the schema `Signup.Submit` applies.
- `Login.Submit`: does not check the email format, for the same reason.
- `Login.FormValid`: the same, since it is the schema `Login.Submit` applies.
- `Profile.Visit`: does not check the email format, for the same reason.
- `Profile.FormValid`: the same, since it is the schema `Profile.Visit` applies.
- The `UserLogIn` dispatches after the storage writes in signup and login, and `navigate`/`alert`. The store slice does not export `UserLogIn`, so only the storage effects before those calls are modelled. The `Done` outcome of `Login.OnSubmit` and `Signup.OnSubmit` means the handler reached its storage writes. In login the `UserLogIn(true)` call sits inside the `try` (src/pages/Login.jsx:62), so if it throws, the catch block still sets `An error occurred while logging in` on the email field after the session was written.
- The password-change page. It is not routed, and as written it uses names it never defines.
- The routing of the profile page. `src/App.jsx:14-20` declares no `/profile` route, although the header's menu navigates there (`src/components/Header.jsx:51`), so as shipped the page is unreachable. The model describes the page's behaviour as if it were routed.
- `Accounts.Cipher`: `encrypt` is a function, so the same password always encrypts to the same text. `CryptoJS.AES.encrypt` with a passphrase salts randomly, so real cipher texts differ from call to call. No property here compares two cipher texts; only decryption is relied on.
- Product detail rendering, the header, the grid and list views, the not-found page, routing and store wiring. They are presentational.
- Concurrent writers to local storage (for example, two tabs). Each modelled handler runs to completion on its own.
