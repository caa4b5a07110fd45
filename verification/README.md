# A verified model of the ai-library visitor core and web-client helpers

This project is a Dafny model of the library service's visitor accounts and of three small pieces of its web client. It proves properties of that model.

The backend is a FastAPI application over a MySQL table of visitors. It covers:

- **registration**: a duplicate-checked insert;
- **login** by username or email, which records the login;
- **profile reads and partial updates**;
- a **filtered, paginated listing**, newest first;
- a **bearer-token gate** that admits a visitor by the `sub` and `type` claims of a JWT the server signed itself.

Around these sit the settings the backend derives at start-up: the comma-separated lists, the database URL and the start-up validation.

The web client pieces are:

- the splitter and parser that turn the chat assistant's event stream into messages;
- the media preloader's registry, queue and readiness flags;
- the service worker's routing, cache retention and cache-first rule.

Every operation is a pure function from the state before (the visitor table, the preloader registry, the media cache) to its outcome and the state after. Anything the code reaches outside itself is a parameter:

- the clock (`now`, whole seconds);
- the password hasher, of which only `verify(p, hash(p))` is assumed;
- the JWT signer, of which only that verifying a token with its key and algorithm gives back its claims is assumed;
- `datetime.isoformat`;
- `JSON.parse`;
- the outcome of each network fetch.

Modules follow the source files:

| module | file | source |
|---|---|---|
| `Common` | common.dfy | `Option`, the JSON value type |
| `Text` | text.dfy | Python/JS string built-ins: `strip`/`trim`, `split`, `str(int)`/`int(str)` |
| `Config` | config.dfy | `ai-library-backend/app/config.py` |
| `Auth` | auth.dfy | `ai-library-backend/app/utils/auth.py` |
| `VisitorModel` | visitor_model.dfy | `ai-library-backend/app/models/visitor.py` |
| `VisitorSchemas` | visitor_schemas.dfy | `ai-library-backend/app/schemas/visitor.py` |
| `VisitorService` | visitor_service.dfy | `ai-library-backend/app/services/visitor_service.py` |
| `VisitorApi` | visitor_api.dfy | `ai-library-backend/app/api/v1/visitor.py` |
| `DifyStream` | dify_stream.dfy | `ai-library-web/src/services/dify.ts` |
| `MediaPreloader` | media_preloader.dfy | `ai-library-web/src/utils/mediaPreloader.ts` |
| `ServiceWorker` | service_worker.dfy | `ai-library-web/public/sw.js` |

## Model

| member | source | states |
|---|---|---|
| Config.CommaList | ai-library-backend/app/config.py:58-61 | one entry per comma-separated piece (number of commas + 1); no entry contains a comma; the pieces, joined back with commas, are the original text, and each entry is its piece with surrounding whitespace stripped |
| Config.DatabaseUrl | ai-library-backend/app/config.py:42-45 | the URL starts with the `mysql+aiomysql://` scheme |
| Config.DatabaseUrlRoundTrip | ai-library-backend/app/config.py:42-45 | reading the URL back by its format gives user, password, host, port, database name and charset unchanged, provided no field contains a character that ends it under the usual URL reading and neither user nor password contains a '%', and the port has at most 4300 digits |
| Config.SettingsProblems | ai-library-backend/app/config.py:149-168 | each problem is reported exactly when its condition holds: debug, reload or the placeholder secret only in production; an empty DB host or DB name anywhere |
| Config.ValidateSettings | ai-library-backend/app/config.py:149-177 | true exactly when no problem was collected, i.e. exactly when production runs without debug, reload and the placeholder secret, and host and name are non-empty |
| Config.DefaultsValidation | ai-library-backend/app/config.py:18-55 | the class defaults validate; the same defaults in production do not |
| Auth.Expiry | ai-library-backend/app/utils/auth.py:24-27 | a non-zero delta gives `now + delta`; an absent or zero (falsy) delta gives `now` plus the configured minutes |
| Auth.WithExpiry | ai-library-backend/app/utils/auth.py:22-29 | the claim set is the caller's claims plus `exp`, every other claim kept as it was |
| Auth.DecodeAccessToken | ai-library-backend/app/utils/auth.py:35-49 | claims come back exactly when the signature verifies under the secret and the one algorithm, `int(exp)` succeeds and is not past, and `sub` is a string if present; an `exp` that is `null`, an array or an object raises past the `except JWTError`; every other failure is the same `None` |
| Auth.ClaimTypeCases | ai-library-backend/app/utils/auth.py:45-49 | a numeric-string `exp` is accepted, a `null` `exp` raises, and an integer `sub` is refused |
| Auth.DecodeIssued | ai-library-backend/app/utils/auth.py:11-49 | a freshly issued token decodes, at any instant up to its expiry, to exactly the caller's claims plus `exp`, and is refused when the caller's `sub` is not a string |
| Auth.DecodeExpired | ai-library-backend/app/utils/auth.py:11-49 | after its expiry instant the same token is refused (`None`) |
| VisitorModel.ParseStatus | ai-library-backend/app/models/visitor.py:12-16 | exactly "active", "inactive" and "banned" name a status, and the status named has that value |
| VisitorModel.StatusValueRoundTrip | ai-library-backend/app/models/visitor.py:12-16 | every status is recovered from its value, and no two statuses share one |
| VisitorModel.NewVisitor | ai-library-backend/app/models/visitor.py:24-61 | a new row has the given columns, no avatar, zero logins, no last login, ACTIVE status, and both timestamps at `now` |
| VisitorModel.RecordLogin | ai-library-backend/app/services/visitor_service.py:98-103 | a login adds one to the count, sets the last login and (through `onupdate`) `updated_at` to `now`, and changes no other column |
| VisitorModel.ToDict | ai-library-backend/app/models/visitor.py:66-82 | the projection has exactly the nine public keys and no password hash; it copies id, username, email, status value and login count; it nests name, phone and avatar under `profile`; the last login is `null` exactly when unset and otherwise its ISO string, and both timestamps are the ISO strings of the row's `created_at` and `updated_at` |
| VisitorModel.ToDictHidesExactlyThePassword | ai-library-backend/app/models/visitor.py:66-82 | two rows project to the same dictionary exactly when they differ at most in the password hash |
| VisitorSchemas.RegisterErrors | ai-library-backend/app/schemas/visitor.py:10-20 | a username-length, password-length or phone-pattern error is reported exactly when that field breaks its constraint |
| VisitorSchemas.RegisterAccepted | ai-library-backend/app/schemas/visitor.py:10-20 | a registration is accepted exactly when the username has 3 to 20 characters, the password at least 6 (no upper bound), and the phone is absent or `1`, a digit 3-9, then nine digits |
| VisitorSchemas.UpdateErrors | ai-library-backend/app/schemas/visitor.py:29-33 | an update is accepted exactly when its phone is absent or matches the pattern; no other field is checked |
| VisitorSchemas.BearerToken | ai-library-backend/app/schemas/visitor.py:55-58 | the token type defaults to "bearer" |
| VisitorService.MatchingKeys | ai-library-backend/app/services/visitor_service.py:35-41 | the selected rows are exactly those whose username equals the given username or whose email equals the given email |
| VisitorService.ScalarOneOrNone | ai-library-backend/app/services/visitor_service.py:42-43 | no row, the one row, or a multiple-results error, according to how many rows were selected |
| VisitorService.Register | ai-library-backend/app/services/visitor_service.py:35-62 | one matching row is the "taken" error, several are the multiple-results error, and either leaves the store unchanged. With no match, one ACTIVE row is inserted under a fresh id with the password's hash and the given name and phone, no other row changes, and the store stays valid |
| VisitorService.RegisterKeepsIdentitiesUnique | ai-library-backend/app/services/visitor_service.py:35-46 | when a stored account shares the username or the email, registration fails and the store, still valid, is unchanged |
| VisitorService.Authenticate | ai-library-backend/app/services/visitor_service.py:77-105 | no matching account and a wrong password are the same `None` with the store unchanged; the disabled error needs a verified password and a non-ACTIVE status; success records the login on that one row only |
| VisitorService.AuthenticateKeepsValid | ai-library-backend/app/services/visitor_service.py:98-103 | recording a login keeps ids, usernames and emails unique |
| VisitorService.GetById | ai-library-backend/app/services/visitor_service.py:119-125 | the row is returned exactly when the id is present |
| VisitorService.Update | ai-library-backend/app/services/visitor_service.py:144-164 | `None` and no change for an unknown id; otherwise each supplied profile field replaces its column, each omitted one is kept, `updated_at` becomes `now`, no other column or row changes, and validity is kept |
| VisitorService.SelectedKeys | ai-library-backend/app/services/visitor_service.py:188-194 | the filter selects every row when the status is absent or empty, otherwise the rows whose status value or member name equals it |
| VisitorService.FilterByMember | ai-library-backend/app/services/visitor_service.py:188-194 | filtering by a member's value (`active`) and by its name (`ACTIVE`) selects the same rows: exactly those holding that member |
| VisitorService.OrderedKeys | ai-library-backend/app/services/visitor_service.py:200 | the selected keys, each exactly once, in listing order |
| VisitorService.Listing | ai-library-backend/app/services/visitor_service.py:186-202 | as many rows as the filter selects, newest `created_at` first |
| VisitorService.ListingContents | ai-library-backend/app/services/visitor_service.py:186-202 | an account is in the listing exactly when it is stored and the filter selects it |
| VisitorService.List | ai-library-backend/app/services/visitor_service.py:185-209 | a negative skip or limit is a query error. Otherwise `total` counts every selected row whatever skip and limit are, the items are the listing from position `skip` on (at most `limit` of them), and skip and limit are echoed |
| VisitorService.PageSelected | ai-library-backend/app/services/visitor_service.py:186-202 | every account on a page is stored and selected by the filter |
| VisitorService.PageNewestFirst | ai-library-backend/app/services/visitor_service.py:200-202 | a page lists its accounts newest first |
| VisitorService.PagesTile | ai-library-backend/app/services/visitor_service.py:200-202 | the page of `a` rows at `skip` followed by the page of `b` rows at `skip + a` is the page of `a + b` rows at `skip` |
| VisitorService.FullListing | ai-library-backend/app/services/visitor_service.py:191-202 | a page from 0 as large as `total` holds every selected account |
| VisitorService.RegisterAdmitsAmbiguousLogin | ai-library-backend/app/services/visitor_service.py:35-41 | two valid registrations may give one account's email as another's username, after which a login with that string fails with the multiple-results error |
| VisitorService.RegisterUnambiguous | ai-library-backend/app/services/visitor_service.py:35-46 | registration refuses a username or email that any account already uses in either column; otherwise it inserts exactly as `Register` does |
| VisitorService.RegisterUnambiguousKeepsInvariant | ai-library-backend/app/services/visitor_service.py:35-62 | the corrected registration keeps every username distinct from every other account's email |
| VisitorService.UnambiguousLogin | ai-library-backend/app/services/visitor_service.py:77-85 | on such a store, login never meets the multiple-results error |
| VisitorService.RegisterThenAuthenticate | ai-library-backend/app/services/visitor_service.py:35-105 | a freshly registered account logs in with its password, by username or by email, when no other account uses that string |
| VisitorService.TokenClaims | ai-library-backend/app/services/visitor_service.py:222-225 | the claims are exactly `sub` = `str(id)`, the id in decimal (which `int` parses back to the id whenever `str` can render it), and `type` = "visitor" |
| VisitorApi.PyInt | ai-library-backend/app/api/v1/visitor.py:49-55 | Python's `int` on a claim: a decimal string in ASCII digits, of at most 4300 digits and surrounded only by what `int` counts as space, parses; an integer is itself; a missing claim, `null`, an array or an object fails |
| Text.SeparatorIsNotIntSpace | ai-library-backend/app/api/v1/visitor.py:50-51 | U+001C passes `str.isspace` yet `int` refuses a claim that starts with it, while a leading blank is skipped |
| VisitorApi.Authorize | ai-library-backend/app/api/v1/visitor.py:26-38 | a token the decoder refuses is 401, one whose decoding raises is 500, and decoded claims go through the gate |
| VisitorApi.CurrentVisitor | ai-library-backend/app/api/v1/visitor.py:26-64 | the gate after decoding, checked in order: no (or empty) payload is 401; a type other than "visitor" is 403, checked before `sub`; an unparsable `sub` is 401; an unknown id is 404; otherwise that account |
| VisitorApi.IssuedTokenAdmits | ai-library-backend/app/api/v1/visitor.py:26-64 | the token issued for an existing account, whose id `str` can render, opens the gate to exactly that account until it expires |
| VisitorApi.Session | ai-library-backend/app/api/v1/visitor.py:83-95 | the reply data holds the public account and a bearer token for its id |
| VisitorApi.RegisterVisitor | ai-library-backend/app/api/v1/visitor.py:67-105 | 422 for invalid input, 400 for a taken identity, 500 for the multiple-results error, and 201 with the new account and its token; only 201 changes the store |
| VisitorApi.LoginVisitor | ai-library-backend/app/api/v1/visitor.py:108-154 | as written: a disabled account is 403, and bad credentials and the multiple-results error are both 500; 200 carries the account and token |
| VisitorApi.LoginIntended | ai-library-backend/app/api/v1/visitor.py:126-130 | as intended: bad credentials are 401, the other codes as above |
| VisitorApi.WrongPasswordAnswers500 | ai-library-backend/app/api/v1/visitor.py:119-154 | a wrong password for an existing account answers 500 as written and 401 as intended |
| VisitorApi.Me | ai-library-backend/app/api/v1/visitor.py:157-170 | the gate's account with 200, or the gate's status code |
| VisitorApi.UpdateMe | ai-library-backend/app/api/v1/visitor.py:173-208 | the gate's code first, then 422 for a bad phone; 200 with the updated account exactly when the row still exists, a vanished row surfacing as 500; only 200 changes the store |
| VisitorApi.ClampLimit | ai-library-backend/app/api/v1/visitor.py:225-226 | the limit becomes `min(limit, 100)`, with no lower bound |
| VisitorApi.PageOf | ai-library-backend/app/services/visitor_service.py:204-209 | one public dictionary per account on the page, in order, with total, skip and limit copied |
| VisitorApi.ListVisitors | ai-library-backend/app/api/v1/visitor.py:211-240 | 200 with the page of the clamped limit, never more than 100 items; a negative skip or limit is 500 |
| DifyStream.FeedSpec | ai-library-web/src/services/dify.ts:48-51 | after a chunk the buffer holds no blank line and neither does any released frame; frames and buffer joined by the separator are the old buffer followed by the chunk |
| DifyStream.FeedAllSplitsWhole | ai-library-web/src/services/dify.ts:45-51 | feeding any chunking of a text releases exactly the pieces of the whole text but the last, which is kept as the buffer |
| DifyStream.EventDefault | ai-library-web/src/services/dify.ts:54-57 | a frame with no `event:` line has event "message" |
| DifyStream.EventLastWins | ai-library-web/src/services/dify.ts:56-57 | the last `event:` line, trimmed, gives the event |
| DifyStream.DataOfAppend | ai-library-web/src/services/dify.ts:55-58 | the data of a frame is the in-order concatenation of its lines' trimmed `data:` payloads, with no separator |
| DifyStream.ParseLines | ai-library-web/src/services/dify.ts:53-59 | the loop computes the event and data defined line by line above |
| DifyStream.ParseFrame | ai-library-web/src/services/dify.ts:53-59 | a frame is split at newlines and its lines parsed |
| DifyStream.Delivered | ai-library-web/src/services/dify.ts:60-69 | only "message" and "answer" frames deliver. Parsed data delivers the first truthy of `answer` and `output`; unparsable data is delivered raw unless it is empty; nothing delivered is falsy |
| DifyStream.DeliveriesAppend | ai-library-web/src/services/dify.ts:52-70 | the values delivered for consecutive frames are those of each frame in turn |
| DifyStream.StreamChatIgnoresChunking | ai-library-web/src/services/dify.ts:44-71 | the callback receives the same values however the stream was chunked: those of every frame of the whole text but the trailing piece |
| DifyStream.UnterminatedFrameDiscarded | ai-library-web/src/services/dify.ts:46-51 | a text that never completes a frame delivers nothing |
| MediaPreloader.Fresh | ai-library-web/src/utils/mediaPreloader.ts:30-36 | a new entry has the book's fields, every flag false and no object URLs |
| MediaPreloader.Register | ai-library-web/src/utils/mediaPreloader.ts:27-40 | only unseen ids are added, each fresh from its first book in the list and queued once at the end, in the order the list first names them; existing entries, the old queue and the run flag are untouched |
| MediaPreloader.RegisterConsistent | ai-library-web/src/utils/mediaPreloader.ts:27-40 | registration keeps every entry under its book's id and every loaded entry fully ready |
| MediaPreloader.QueuedIsNew | ai-library-web/src/utils/mediaPreloader.ts:29-37 | every id registration queues was not in the registry before |
| MediaPreloader.RegisterIdempotent | ai-library-web/src/utils/mediaPreloader.ts:27-40 | registering the same books again adds and queues nothing |
| MediaPreloader.LoadQuote | ai-library-web/src/utils/mediaPreloader.ts:70-79 | a blank quote URL is ready without fetching; a fetched blob sets exactly the object URL to the blob's and the flag; a null response leaves the item as it was; a failure aborts it |
| MediaPreloader.LoadAudio | ai-library-web/src/utils/mediaPreloader.ts:82-91 | the same for the full audio |
| MediaPreloader.PreloadOne | ai-library-web/src/utils/mediaPreloader.ts:64-96 | the video is always marked ready and no flag is lowered; a fetched blob's object URL and flag are set for each audio, a null response leaves that audio's fields, a quote failure stops before the full audio, and a failure leaves the entry not loaded; `loaded` implies all three flags, and if neither fetch throws it is set exactly when all three are |
| MediaPreloader.PreloadItem | ai-library-web/src/utils/mediaPreloader.ts:60-97 | an unknown or already loaded id changes nothing; otherwise only that entry is preloaded |
| MediaPreloader.FetchedBlobsLoad | ai-library-web/src/utils/mediaPreloader.ts:64-110 | an entry whose non-blank audio URLs each fetch a blob is loaded by one preload, and the media returned then is ready and carries those blobs' object URLs |
| MediaPreloader.BlankUrlsLoadWithoutFetching | ai-library-web/src/utils/mediaPreloader.ts:70-93 | an entry whose two audio URLs are blank or whitespace becomes loaded whatever the network does |
| MediaPreloader.PreloadItemConsistent | ai-library-web/src/utils/mediaPreloader.ts:60-97 | preloading an item keeps the registry consistent |
| MediaPreloader.PreloadAllAppend | ai-library-web/src/utils/mediaPreloader.ts:48-54 | preloading a queue in two parts is preloading it whole |
| MediaPreloader.PreloadAllConsistent | ai-library-web/src/utils/mediaPreloader.ts:43-57 | a preload run keeps the registry consistent |
| MediaPreloader.PreloadAllMonotone | ai-library-web/src/utils/mediaPreloader.ts:60-97 | a preload run never clears a flag |
| MediaPreloader.StartPreload | ai-library-web/src/utils/mediaPreloader.ts:43-57 | a call during a run does nothing. Otherwise the queue is drained front to back in batches of at most 2 (all full but the last), every queued id is preloaded in order, and the run ends with an empty queue and the flag cleared |
| MediaPreloader.GetPreloadedMedia | ai-library-web/src/utils/mediaPreloader.ts:100-110 | null unless the entry exists and is loaded; otherwise `videoUrl` undefined, the entry's object URLs, and `ready` true on a consistent registry |
| MediaPreloader.IsLoaded | ai-library-web/src/utils/mediaPreloader.ts:113-116 | true exactly when the media would be returned; false for an unknown id |
| MediaPreloader.LoadedIds | ai-library-web/src/utils/mediaPreloader.ts:121 | the ids of exactly the loaded entries |
| MediaPreloader.Percent | ai-library-web/src/utils/mediaPreloader.ts:125 | the ratio as a percentage, read on exact rationals and rounded half up: within 0..100, 0 for none, 100 for all, and within half a point of the exact percentage |
| MediaPreloader.GetProgress | ai-library-web/src/utils/mediaPreloader.ts:119-127 | total is the number of entries and loaded the number of loaded ones, at most total; percentage 0 for an empty registry, otherwise within 0..100 and 100 when all are loaded |
| MediaPreloader.ObjectUrls | ai-library-web/src/utils/mediaPreloader.ts:133-138 | the non-empty object URLs an entry holds |
| MediaPreloader.Cleanup | ai-library-web/src/utils/mediaPreloader.ts:130-151 | a truthy id removes only that entry and revokes its URLs; no id, or id 0, clears the registry and revokes every URL; the queue and the run flag are untouched |
| ServiceWorker.RouteOf | ai-library-web/public/sw.js:19-37 | non-GET, ranged, cross-origin and non-media requests pass through; a same-origin GET without range for `/videos/` or `/audio/` is served cache-first |
| ServiceWorker.Doomed | ai-library-web/public/sw.js:11-13 | exactly the cache names other than the media cache are deleted |
| ServiceWorker.Survivors | ai-library-web/public/sw.js:11-12 | the media cache survives activation exactly when it existed |
| ServiceWorker.ActivatePartitions | ai-library-web/public/sw.js:7-17 | deleted and surviving names together are exactly the names found, counted with multiplicity |
| ServiceWorker.CacheFirstServe | ai-library-web/public/sw.js:39-52 | a cached response is returned without fetching; otherwise the network's response is returned and stored only when ok with status exactly 200; no other entry changes |
| ServiceWorker.CacheFirstKeepsOnlyComplete | ai-library-web/public/sw.js:47-50 | the cache only ever holds 200 responses, so partial 206 responses are never stored |
| ServiceWorker.SecondRequestServedFromCache | ai-library-web/public/sw.js:39-52 | after a 200 was fetched for a URL, the next request for it is answered from the cache whatever the network does |
| ServiceWorker.HandleFetch | ai-library-web/public/sw.js:19-37 | a passed-through request neither responds nor touches the cache; a cache-first one is served as above |
| ServiceWorker.RangeRequestsBypassCache | ai-library-web/public/sw.js:27-29 | a range request is never answered from, nor stored in, the cache |

## Left out

- **Password hashing.** bcrypt salting and its 72-byte input limit are not modelled. `ai-library-backend/app/utils/security.py` is a parameter `Hasher` with only `verify(p, hash(p))` assumed.
- **JWT internals.** The library is kept abstract: encoding, the HMAC and the header. The claim checks modelled are those of `exp` (Python `int()` of the claim, compared to whole seconds) and `sub` (must be a string).
- **Auth.DecodeAccessToken:** python-jose's other claim checks are not modelled: `iat` and `nbf` (their `int()` conversion and the not-before instant), `aud` (any audience is refused when none is expected), `jti` (must be a string) and `at_hash`. The server never issues these claims, and a token carrying them must be signed with the server's secret. JSON numbers are integers in the model, so a fractional `exp` (truncated by `int()`) is not represented.
- **Time.** Sub-second precision is not modelled, and `isoformat` is a parameter.
- **Database plumbing.** Sessions, commits, connection errors and the race between two concurrent registrations are left out. Uniqueness is the `Valid` invariant.
- **Column widths.** These are `String(20)` and similar; longer values are not refused.
- **Integer width.** The overflow of the `login_count` integer column is not modelled.
- **VisitorService.SelectedKeys:** the SQL enum stores member names, and the column compares them under its collation. The model matches a member's value or its exact name only. Under MySQL's default case-insensitive collation, `status=Active` also selects the active rows; the model selects none.
- **EmailStr validation** is not modelled. `\d` in the phone pattern is taken as the ASCII digits, not every Unicode decimal digit.
- **VisitorApi.PyInt:** Python's `int()` on a string is modelled for ASCII digits only. Python also accepts the decimal digits of other scripts (`int('١٢')` is 12), which the model refuses; a `sub` claim the server issued is always ASCII. The 4300-digit limit and the `int()` whitespace set (that of `str.isspace` without U+001C..U+001F) are modelled. Python's `str()` also refuses integers of more than 4300 digits; `Text.IntToDecimal` renders them, so the lemmas that parse a rendered id or port back require it to be within the limit.
- **Identity comparison.** `VisitorService.MatchingKeys` compares usernames and emails by exact string equality. The source sets no collation, and MySQL's default `utf8mb4` collations ignore case (and trailing spaces). On such a server, registering "Ann" after "ann" is refused and a login as "ANN" finds "ann"; the model inserts in the first case and finds no row in the second.
- **JSON floats.** A float `sub` claim, which `int` truncates, is not modelled.
- **VisitorService.OrderedKeys:** SQL leaves the order of rows with equal `created_at` unspecified. The model lists the larger id first. Newest first and the listing contents hold whichever tie order is used. `PagesTile` and `FullListing` assume that every query orders tied rows the same way. The source runs each page as its own `ORDER BY created_at DESC` query with `OFFSET`/`LIMIT` and no id tiebreak, and `created_at` is stored in whole seconds. MySQL may order tied rows differently from one query plan to another, including with and without `LIMIT`. So two consecutive pages can repeat one row of a tie and skip another, which the model does not show.
- **Gate plumbing.** A request without an `Authorization` header is refused by `HTTPBearer` before the gate runs. That refusal, the response `message` texts and `detail` values, the `success` flag of the envelope and the `response_model` filtering are not modelled. A reply is its status code and `data`.
- **Config.DatabaseUrlRoundTrip:** the source does not quote the fields it puts into `DATABASE_URL`. The URL is read by SQLAlchemy's URL parser, which is not part of this model; that parser percent-decodes user and password and ends the user at '/' and the host at '/' or '?'. The round trip is stated against the model's own reading of the format, under requires that keep such characters out of the fields.
- **VisitorApi.ListVisitors:** the route's `status` query parameter shadows FastAPI's `status` module, so building the 500 `HTTPException` in its `except` branch itself raises `AttributeError`. The client still receives 500, from the unhandled error rather than from the intended exception; the model records only the status code.
- **Settings loading.** Loading settings from the environment or `.env`, and the random default `SECRET_KEY`, are not modelled. `Defaults` takes the secret as a parameter. The `print` output of `validate_settings` is not modelled.
- **Stream decoding.** `TextDecoder` is not modelled: chunks are already text. `JSON.parse` is a parameter.
- **DifyStream.Delivered:** a parsed `null` makes `json.answer` throw, so it is handled like unparsable data.
- **Network errors.** The request errors thrown before the stream loop are not modelled.
- **Prefetch internals.** The internals of `fetchAndCache` and `prefetchVideoHead` are not modelled: the Cache API, the Range request and the 2 MB byte count. A fetch is a parameter outcome: a null response, a blob with its object URL, or a body read that throws. The head prefetch swallows its own errors and always lets the video count as ready.
- **Preloader concurrency.** Concurrency within a batch is not modelled: a batch's items run one after another. The 500 ms pause between batches is not modelled either. Re-entering `register` or `cleanup` while a run awaits is left out.
- **MediaPreloader.PreloadOne** requires the entry not to be loaded. `preloadItem` returns early for a loaded entry, which `PreloadItem` models.
- **MediaPreloader.Percent:** models `Math.round((loaded / total) * 100)` on exact rationals, rounding halves up. Floating-point error in the division is not modelled. For 23 of 40 loaded, the source computes 57.49999999999999 and shows 57; the model gives 58.
- **Service-worker URLs.** The service worker's URL parsing is not modelled. A request carries its origin and pathname already parsed.
- **Service-worker lifecycle.** `cache.put` is not awaited, and the model stores the entry before the next event. The `install` handler, `skipWaiting` and `clients.claim` are not modelled.

## Findings

| source | as written | input that shows it | evidently intended | confidence | as-written member | corrected member |
|---|---|---|---|---|---|---|
| ai-library-backend/app/api/v1/visitor.py:119-154 | the 401 for unknown credentials is raised inside the `try`, whose `except Exception` re-raises it as 500 | an existing username with a wrong password | 401 "wrong username or password" | high; not executed | VisitorApi.LoginVisitor (exhibited by VisitorApi.WrongPasswordAnswers500) | VisitorApi.LoginIntended |
| ai-library-backend/app/services/visitor_service.py:35-41 | registration compares the username only with usernames and the email only with emails, while login looks its string up in both columns | register ("ann", "ann@x.io"), then ("ann@x.io", "bob@x.io"); log in as "ann@x.io" and `scalar_one_or_none` raises, answered as 500 | an identity string names at most one account, so login never meets two rows | high; not executed | VisitorService.RegisterAdmitsAmbiguousLogin | VisitorService.RegisterUnambiguous (with VisitorService.RegisterUnambiguousKeepsInvariant and VisitorService.UnambiguousLogin) |

The HTTP handlers keep the as-written service and mapping, so that their contracts describe the deployed behaviour. The corrected members sit beside them with the intended property proved.
