# Smart receipt analyzer: a Dafny model of the backend core

This project models the FastAPI backend of the smart receipt analyzer.

- A signed-in user uploads a photo or PDF of a receipt to `POST /extract`.
- The backend runs OCR on it and sends the stripped text to a chat-completion model with a fixed prompt.
- It cuts the stripped reply down to the span from its first `{` to its last `}` and parses that span as JSON.
- A missing or empty `date` becomes `"2025-08-02"`. The record is then validated against the `ReceiptData` schema: merchant, date, items and total.
- The receipt and one row per item are saved in a single commit. The body returned is the validated record.
- `GET /receipts` lists the caller's receipts, each with its items.
- `DELETE /receipts/{id}` removes one receipt of the caller, together with its items.
- `/auth/register`, `/auth/login` and `/auth/me` manage users, bcrypt password hashes and one-day JWT bearer tokens.
- Every receipt route resolves the bearer token to a stored user first.

The layout follows the backend's files:

| module | file | models |
|---|---|---|
| `Schema` | `schema.dfy` | `backend/app/core/schema.py` |
| `Gpt` | `gpt.dfy` | `backend/app/core/gpt.py` |
| `Models` | `models.dfy` | `backend/app/core/models.py`, and the database session as the class `Models.Session` |
| `Auth` | `auth.dfy` | `backend/app/core/auth.py` |
| `Dependencies` | `dependencies.dfy` | `backend/app/core/dependencies.py` |
| `AuthRoutes` | `auth_routes.dfy` | `backend/app/api/auth_routes.py` |
| `Routes` | `routes.dfy` | `backend/app/api/routes.py` |

Four small modules support them:

- `Wrappers`: `Option`, `Result` and `NoDuplicates`.
- `Json`: the values `json.loads` produces.
- `Http`: `HTTPException` as a value.
- `Dates`: the calendar, the `YYYY-MM-DD` parser and `str(date)`.

## How the model is built

- **Pure code becomes functions.**
  - Schema validation, the model's reply handling, the date fallback, token claims and user lookups are functions on values.
  - Each `raise` becomes a `Failure` value.
  - The `try`/`except` blocks become explicit error results.
- **The database is a class.**
  - `Models.Session` holds the three tables as maps keyed by primary key.
  - The routes that write are methods with `modifies session`.
  - The rows that `session.add` and `session.delete` queue up are kept in local variables.
  - `session.commit()` is `Session.Commit`. It installs the new tables in one step and requires them to satisfy `Models.Inv`: keys, the unique email and the foreign keys.
- **The loops stay loops.**
  - The loop that saves items becomes `Routes.AddItemRows`.
  - The two listing loops become `Routes.ItemsFor` and `Routes.GetAllReceipts`.
  - The loop that deletes a receipt's items is inside `Routes.DeleteReceipt`.
  - Each loop is proved against value-level functions:
    - `Routes.AddItemRows` against `Routes.ItemRows`;
    - `Routes.ItemsFor` against `Routes.ItemViews` and `Models.ItemsOf`;
    - `Routes.GetAllReceipts` against `Routes.EntryOf` and `Models.ReceiptsOf`;
    - `Routes.DeleteReceipt` against `Models.WithoutReceipt`.
  - `Routes.ExtractReceipt` is proved against `Models.WithReceipt` and `Routes.ItemRows`.
- **Everything the backend calls but does not implement is a parameter.**
  - The OCR engines and the chat-completion call.
  - `json.loads`.
  - bcrypt's `hash` and `verify`.
  - `jwt.encode` and `jwt.decode`, with their key and algorithm.
  - The clock (`now`) and fresh uuids (as arguments that must not already be keys).
- **Value representations.**
  - Uuids are their canonical text, so `str(id)` is the id itself.
  - Timestamps are integer seconds.
  - Floats are `real`.

## Model

| member | source | states |
|---|---|---|
| `Schema.StringField` | backend/app/core/schema.py:5-14 | a field reading succeeds exactly when the key is present with a JSON string, and returns that string |
| `Schema.NumberField` | backend/app/core/schema.py:8-14 | a `float` field succeeds exactly when the key holds a JSON number (an int is accepted and widened), and returns its value |
| `Schema.ValidateItem` | backend/app/core/schema.py:5-8 | `ItemData.model_validate` succeeds exactly on objects with a string `name`, an integer `quantity` and a numeric `price`; the fields of the result are those values |
| `Schema.ValidateItems` | backend/app/core/schema.py:12 | `List[ItemData]` succeeds exactly when every entry validates; one bad entry fails the list; the result has one validated item per entry, in order |
| `Schema.ValidateReceipt` | backend/app/core/schema.py:10-14 | `ReceiptData.model_validate` succeeds exactly on objects whose four fields are present with their types, the date being a real calendar date in `YYYY-MM-DD` form; each field of the result comes from the input |
| `Schema.DumpItem` | backend/app/api/routes.py:87 | an item's dump is an object with exactly `name`, `quantity` and `price`, and it is a valid item again |
| `Schema.DumpItems` | backend/app/api/routes.py:87 | the dumped list has one entry per item, each the dump of that item, in order |
| `Schema.DumpReceipt` | backend/app/api/routes.py:87 | the returned body is an object with exactly the four schema fields, is itself a valid record, and holds the date in ISO form |
| `Schema.ItemRoundTrip` | backend/app/core/schema.py:5-8 | dumping an item and validating the dump gives back the same item |
| `Schema.ItemsRoundTrip` | backend/app/core/schema.py:12 | dumping an item list and validating it gives back the same list |
| `Schema.ReceiptRoundTrip` | backend/app/api/routes.py:53-87 | the body `/extract` returns (`model_dump` with the date in ISO form) validates back to exactly the validated record |
| `Schema.MissingFieldRejected` | backend/app/core/schema.py:10-14 | a record missing any of `merchant`, `date`, `items` or `total` is rejected |
| `Schema.OneBadItemRejectsReceipt` | backend/app/core/schema.py:12-13 | a record with one invalid entry anywhere in `items` is rejected |
| `Schema.EmptyItemsAccepted` | backend/app/core/schema.py:12-13 | a record with an empty `items` list and valid other fields is accepted, with no items |
| `Dates.ParseDate` | backend/app/core/schema.py:11 | a parsed date is a real calendar date (years 1 to 9999, leap years included), and the text had the `YYYY-MM-DD` shape |
| `Dates.FormatDate` | backend/app/api/routes.py:110 | `str(date)` always has the `YYYY-MM-DD` shape |
| `Dates.FormatThenParse` | backend/app/api/routes.py:87 | a printed date parses back to the same date |
| `Dates.ParseThenFormat` | backend/app/core/schema.py:11 | a text the schema accepts as a date is exactly that date printed, so no other spelling is accepted |
| `Gpt.LeadingSpaces` | backend/app/core/gpt.py:38 | the length of the whitespace prefix `str.strip` removes: all whitespace, and followed by a non-space when anything follows |
| `Gpt.TrailingSpaces` | backend/app/core/gpt.py:38 | the same for the whitespace suffix |
| `Gpt.Strip` | backend/app/core/gpt.py:38-64 | `str.strip()`: the result is a contiguous part of the input with no whitespace at either end, and only whitespace was removed around it |
| `Gpt.StripUnique` | backend/app/core/gpt.py:38 | stripping whitespace wrapped around a trimmed text gives that text back, whatever whitespace it was |
| `Gpt.StripIdempotent` | backend/app/core/gpt.py:58-64 | stripping twice is stripping once |
| `Gpt.StripIgnoresSurroundingSpace` | backend/app/core/gpt.py:38 | whitespace added around a text does not change what it strips to |
| `Gpt.FirstIndexFrom` | backend/app/core/gpt.py:62 | the first position holding the character at or after a start, or none at all |
| `Gpt.LastIndexBefore` | backend/app/core/gpt.py:62 | the last position holding the character before a bound, or none at all |
| `Gpt.CandidateSpan` | backend/app/core/gpt.py:62 | the greedy match of `\{[\s\S]*\}` runs from the first `{` to the last `}`; it exists exactly when some `{` has a `}` after it |
| `Gpt.JsonCandidate` | backend/app/core/gpt.py:62-67 | `match.group(0)` exists exactly when the reply has a brace pair; it is the slice from the first `{` to the last `}`, so it starts with `{` and ends with `}` |
| `Gpt.CandidateIsStripped` | backend/app/core/gpt.py:64 | the `.strip()` applied to the match changes nothing |
| `Gpt.Prompt` | backend/app/core/gpt.py:18-38 | the prompt is the template text up to the placeholder, then the stripped OCR text, then the closing newline |
| `Gpt.PromptDeterminedByStrippedText` | backend/app/core/gpt.py:38 | two OCR texts give the same prompt exactly when they strip to the same text |
| `Gpt.Messages` | backend/app/core/gpt.py:41-46 | the request carries two messages: the system message with the parser instruction, then the user message holding the prompt |
| `Gpt.PromptIgnoresSurroundingSpace` | backend/app/core/gpt.py:38 | whitespace around the OCR text does not change the request sent to the model |
| `Gpt.ExtractOrRaise` | backend/app/core/gpt.py:40-69 | each failure of the `try` body exactly when it happens: the call raised; the `AttributeError` of a reply with no `choices` attribute (read by the debug print before the check) or with a None `content`; the "No choices" `ValueError` when `choices` is None or empty; no brace pair in the stripped content; or `json.loads` refused the match. It succeeds exactly when none of these happens, and the value is what `json.loads` made of the match |
| `Gpt.ExtractStructuredData` | backend/app/core/gpt.py:37-75 | `extract_structured_data` returns None exactly when the `try` body raised (the `except` logs and returns nothing); otherwise the parsed JSON |
| `Http.Raise` | backend/app/api/routes.py:136 | an `HTTPException` carries the status and detail it was given and no headers |
| `Models.ItemsOf` | backend/app/api/routes.py:105 | the item query for a receipt selects exactly the items whose `receipt_id` is that receipt |
| `Models.ReceiptsOf` | backend/app/api/routes.py:100 | the receipt query for a user selects exactly the receipts whose `user_id` is that user |
| `Models.WithReceipt` | backend/app/api/routes.py:63-84 | the save adds the receipt under its id and the item rows under theirs; users and every other row are unchanged |
| `Models.WithoutReceipt` | backend/app/api/routes.py:139-144 | after a delete, users are unchanged, the receipt is gone, exactly the items referencing it are gone, and every remaining row is unchanged |
| `Models.WithReceiptKeepsInv` | backend/app/core/models.py:13-33 | adding a receipt for an existing user with fresh item rows pointing at it keeps keys, unique emails and foreign keys intact |
| `Models.WithReceiptItems` | backend/app/core/models.py:14-15 | after a save, the new receipt's items are exactly the new rows, and every other receipt keeps its items |
| `Models.WithoutReceiptKeepsInv` | backend/app/core/models.py:15-24 | deleting a receipt together with its items leaves no item pointing at a missing receipt |
| `Models.WithUser` | backend/app/core/auth.py:51-56 | a registration stores the user under its id; every other user, and the receipts and items, are unchanged |
| `Models.WithUserKeepsInv` | backend/app/core/models.py:6-8 | adding a user under a fresh id with an unused email keeps the email index unique |
| `Models.Session.Commit` | backend/app/api/routes.py:84 | `session.commit()` installs exactly the pending tables, which must satisfy the keys, unique email and foreign keys |
| `Models.Session.constructor` | backend/app/core/models.py:6-33 | an empty database satisfies the table invariant |
| `Auth.ExpiresAt` | backend/app/core/auth.py:21-25 | the expiry is `now + delta`, or `now` plus one day (86400 s) when no delta is given or the delta is zero (falsy) |
| `Auth.TokenClaims` | backend/app/core/auth.py:23-26 | the encoded claims are a copy of the data with `exp` set to the expiry; every other claim is kept |
| `Auth.CreateAccessToken` | backend/app/core/auth.py:23-27 | the token is the encoding of the claims `TokenClaims` builds: the data with `exp` set to the expiry |
| `Auth.IssuedTokenDecodes` | backend/app/core/auth.py:23-34 | a token `create_access_token` issues, under a decoder that accepts it, decodes to the caller's claims with `exp` set to the expiry |
| `Auth.DecodeAccessToken` | backend/app/core/auth.py:29-34 | the claims when `jwt.decode` accepts the token; None exactly when it raises |
| `Auth.UserByEmail` | backend/app/core/auth.py:37-39 | the stored user with that email exactly when there is one |
| `Auth.UserById` | backend/app/core/auth.py:41-43 | the user stored under that id exactly when there is one |
| `Auth.AuthenticateUser` | backend/app/core/auth.py:45-49 | a user exactly when a stored user has that email and the password verifies against its hash; that user |
| `Auth.CreateUser` | backend/app/core/auth.py:51-56 | the commit fails exactly when the email is taken; otherwise exactly one user is added, holding the password's hash, and receipts and items are untouched |
| `Dependencies.CurrentUser` | backend/app/core/dependencies.py:9-24 | the user named by the token's `sub` exactly when the token decodes and names a stored user; every other case is the same 401 with `WWW-Authenticate: Bearer` |
| `Dependencies.RejectedTokenIsUnauthorised` | backend/app/core/dependencies.py:18-20 | a token that `jwt.decode` rejects (expired, tampered) is refused with that 401 |
| `AuthRoutes.GetMe` | backend/app/api/auth_routes.py:22-28 | `/auth/me` answers the caller's id, email and creation time exactly when the token resolves, and fails with the 401 otherwise |
| `AuthRoutes.Register` | backend/app/api/auth_routes.py:30-35 | 400 "Email already registered" exactly when the email is taken, with nothing written; otherwise exactly one new user with the hashed password, and its id and email as the answer |
| `AuthRoutes.Login` | backend/app/api/auth_routes.py:37-43 | 401 "Invalid credentials" exactly when authentication fails; otherwise a bearer token whose claims are the user's id as `sub` and an expiry one day later |
| `AuthRoutes.LoginAfterRegister` | backend/app/api/auth_routes.py:30-43 | register, then log in with the same credentials: login succeeds and, provided the token it issues decodes to its own claims, that token resolves to the new user |
| `Routes.OcrText` | backend/app/api/routes.py:34-37 | a filename ending in `.pdf` takes the PDF OCR path and any other the image path |
| `Routes.UpperCasePdfUsesImageOcr` | backend/app/api/routes.py:34 | the suffix test is case-sensitive: `X.PDF` goes through image OCR |
| `Routes.WithDateFallback` | backend/app/api/routes.py:47-49 | a missing or empty date becomes `"2025-08-02"`; any other value and every other field are kept |
| `Routes.MissingDateUsesFallback` | backend/app/api/routes.py:47-53 | a reply without a date, whose other fields and items are all valid, validates with the date 2 August 2025 |
| `Routes.ExtractionFailed` | backend/app/api/routes.py:89-91 | the outer `except` always answers 500 with the detail "Extraction failed: " followed by the exception's text, and no headers |
| `Routes.Extraction` | backend/app/api/routes.py:30-57 | OCR, extraction, fallback and validation; success exactly when OCR succeeds, the reply is a JSON object, and it validates after the fallback; every failure is a 500, and a schema failure is the 500 "Extraction failed: 422: Invalid GPT output schema." |
| `Routes.ItemRows` | backend/app/api/routes.py:75-82 | one item row per validated item, under its fresh id, pointing at the receipt, with the item's name, quantity and price |
| `Routes.ItemRowsCount` | backend/app/api/routes.py:75-82 | no row overwrites another: as many rows as validated items |
| `Routes.AddItemRows` | backend/app/api/routes.py:75-82 | the loop of `session.add(db_item)` adds exactly those rows to the pending items |
| `Routes.ReceiptRow` | backend/app/api/routes.py:63-71 | the receipt row belongs to the caller and carries the filename, the validated merchant, date and total, and the OCR text |
| `Routes.ExtractReceipt` | backend/app/api/routes.py:24-91 | `/extract` succeeds exactly when the pipeline does; on failure it answers that error and writes nothing; on success it commits exactly the receipt and its item rows, and answers the dumped record |
| `Routes.DateText` | backend/app/api/routes.py:110 | `str(receipt.date)` is `"None"` exactly when the date is missing; otherwise it has the ISO shape and parses back to the date |
| `Routes.ReceiptViewOf` | backend/app/api/routes.py:106-120 | a listing entry carries the receipt's id, filename, merchant, total and creation time, the given items, and its date as that text |
| `Routes.ItemViews` | backend/app/api/routes.py:112-118 | one `{name, quantity, price}` entry per item row, in the order of the rows |
| `Routes.IdsOf` | backend/app/api/routes.py:107 | the `id` of each listing entry |
| `Routes.ItemsFor` | backend/app/api/routes.py:105-118 | the item query and comprehension list each item of the receipt exactly once, and project each one |
| `Routes.GetAllReceipts` | backend/app/api/routes.py:94-122 | exactly the caller's receipts, each once; each entry is the receipt's fields with exactly its own items |
| `Routes.DataViews` | backend/app/api/routes.py:112-118 | the validated items as the listing projects them |
| `Routes.DistinctSameElements` | backend/app/api/routes.py:105 | two duplicate-free listings of the same rows are permutations of each other |
| `Routes.PermutedViews` | backend/app/api/routes.py:112-118 | projecting a permutation of item rows gives a permutation of the item entries |
| `Routes.EnumerationsAgree` | backend/app/api/routes.py:105 | any two complete listings of one receipt's items hold the same ids |
| `Routes.SavedIdsEnumerate` | backend/app/api/routes.py:75-84 | right after a save, the fresh item ids list exactly the new receipt's items |
| `Routes.SavedViews` | backend/app/api/routes.py:75-82 | right after a save, the rows under the fresh ids project back to the validated items, in order |
| `Routes.ListedItemsAreSavedItems` | backend/app/api/routes.py:75-118 | save, then list: in whatever order the database returns them, the new receipt's entries hold exactly the validated items, each as many times as it was validated |
| `Routes.DeleteReceipt` | backend/app/api/routes.py:128-145 | 404 "Receipt not found" exactly when the receipt is missing or belongs to someone else, with nothing written; otherwise "Receipt deleted", and exactly that receipt and its items are removed, after which the caller no longer owns it |

## Left out

- OCR itself amounts to two parameters that may fail. Not modelled: `backend/app/core/ocr.py`, the thread pool behind `run_blocking`, and the `async` scheduling.
- Not modelled: the OpenAI client and its configuration, the API-key check at import time, `temperature` and the model name, `print` and traceback logging, and Python-dotenv.
- The completion endpoint's answers are a parameter, and so is `json.loads`; a JSON value is a datatype rather than text.
- `Gpt.ExtractOrRaise`: the text of the exceptions raised inside the `try` is not modelled. They are caught, and `extract_structured_data` returns None whatever they say.
- `Routes.Extraction`: the 500 detail for an OCR failure carries the OCR engine's message as given. For an extractor reply that is not a dict, the detail is the `AttributeError` text of `.get`. The text of other library exceptions is not reproduced.
- Database failures are not modelled (a dropped connection, or an `IntegrityError` raised by the `/extract` commit). The same goes for the 500 "Failed to retrieve receipts" that `GET /receipts` answers on such an exception and that route's `print`.
- `Auth.CreateUser`: the unique index is checked against the tables as they stand. Under the model's single-threaded sessions, two registrations of the same email racing between the lookup and the commit cannot happen.
- Pydantic's lax coercions are not modelled. Numeric strings, booleans and floats with no fractional part are not coerced to `int`, and only `YYYY-MM-DD` is accepted as a date. Not modelled either: timestamps as dates, extra keys (ignored by both model and code), and pydantic's error messages.
- JSON numbers are `int` or `real`. IEEE float rounding, `NaN` and infinities are not modelled.
- Uuids are modelled as text. A `sub` claim that is not a string, or that names no stored user, is rejected with the same 401. The UUID parsing that the database driver does on a malformed `sub` is not modelled.
- `DELETE /receipts/{id}` parses its path parameter into a UUID before the handler runs. That 422 is FastAPI's and is not modelled.
- `datetime` values are integer seconds. Not modelled:
  - microseconds;
  - the timezone;
  - `str(datetime)` in the `created_at` fields that `/auth/me` and `/receipts` return (they are returned as the number);
  - the JWT library turning `exp` into a NumericDate.
- The bcrypt hash and the JWT signature are parameters, and their cryptographic properties are not modelled. `AuthRoutes.LoginAfterRegister` assumes only two things: a hash verifies its own password, and the one token login issues decodes to exactly the claims it was encoded from.
- `OAuth2PasswordBearer`'s own 401 for a request without an `Authorization` header is not modelled. Routes receive the token text.
- The prompt text tells the model to use `"2025-08-01"` for a missing date, while the route substitutes `"2025-08-02"`. Both constants are kept as written (`Gpt.PromptHead`, `Routes.FallbackDate`). The model's own choice of date is a parameter.
- The `UserRegister` and `UserLogin` request models' type checks are FastAPI's and are not modelled. Neither are the frontend, `main.py`'s CORS setup, the Alembic migrations or the engine configuration.
- `Routes.GetAllReceipts` and `Routes.ItemsFor` list rows in an arbitrary order. That stands for the database returning rows in no promised order. The contracts say which rows and how often, not in what order.
