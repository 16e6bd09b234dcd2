# family_milk product authenticity — a Dafny model

family_milk lets a dairy producer register milk products and lets consumers check that a product is genuine.

The backend keeps three stores:
- a product catalogue in a document database;
- an attestation ledger (the "blockchain"), written on every create that passes the duplicate check;
- a scan log.

It offers five handlers:
- `create_product` registers a product;
- `verify/:uid` answers whether a uid is genuine, from the database first and from the ledger as a fallback;
- `record_scan` counts a scan and logs it;
- `scan_history` lists the latest scans;
- `products` lists the catalogue.

A canned responder answers consumers' questions about a product by keyword.

The browser client has four parts:
- it extracts the uid from a scanned QR text;
- it builds the QR URL when the admin creates a product;
- it keeps a local list of hidden products and filters them out of the consumer catalogue;
- it guards the consumer's verify flow and switches between the home, login, admin and consumer pages.

The model has these modules:

- `Wrappers`: `Option` and `Result`.
- `Strings`: the JavaScript string operations the code relies on, over strings of code points: `indexOf`, `includes`, `split(sep)[1]` and `toLowerCase`.
- `Models`: the product and scan-history records, the ledger's record, and the catalogue invariant.
  - The invariant: every record is filed under its own non-empty, unique uid.
- `ScanOrder`: the scan-history query, i.e. a sort on `timestamp`, newest first, then a limit.
- `Server`: the backend.
  - `Verify` is a function over the two stores.
  - `Backend` is a class. Its fields are the product map, the creation order, the ledger map and the history sequence.
  - Its methods are `CreateProduct` and `RecordScan`; its functions are `ListProducts` and `ScanHistory`.
- `Responder`: the keyword responder, as a total function.
- `Client`:
  - the QR helpers;
  - the hidden list and the filter;
  - the consumer page (`UserPage`) and the admin page (`AdminPage`) as classes.
- `Navigation`: the `page`/`isAdmin` state machine of the root component.
  - It is a pure step function, plus a class `App` whose handler is proved to follow it.

Everything the code reads from outside is a parameter:
- The clock is an integer `now` in milliseconds.
- Locale date formatting and the QR image encoder are function-valued constants of `Backend`.
- The ledger write's reply is `chainReply: Option<string>`; `None` means the write threw.
- `Reach` says whether each store answers a lookup.

A JSON field that is absent is modelled as the empty string. JavaScript's `||` treats both the same way.

The order of the writes in a create matters:
- The duplicate check (backend/server.js:43) is followed by the ledger write (backend/server.js:48-53). Only then does the database's `required` constraint on `uid` (backend/models.js:5) reject an empty uid at `save()` (backend/server.js:83).
- So a create request with an empty uid leaves an attestation on the ledger and no product in the database. `Server.Backend.CreateProduct` answers `Failure(Rejected)` in that case and states that the ledger was written.

## Model

| member | source | states |
|---|---|---|
| Models.InsertKeepsCatalogue | backend/models.js:5 | Filing a record under a new, non-empty uid keeps every record under its own unique uid. It adds exactly one record and leaves the others as they were. |
| Strings.IndexOf | backend/ai_module.js:7-21 | `indexOf` finds the first occurrence at or after the start index. `None` means there is no occurrence at any index from there on. |
| Strings.ContainsIff | backend/ai_module.js:7-21 | `includes` holds exactly when the pattern occurs at some index. |
| Strings.SecondPiece | frontend/src/App.jsx:96 | `split(sep)[1]` is defined exactly when `sep` occurs. It is the piece starting right after the first `sep` and running to the next `sep` or to the end, and it holds no `sep`. |
| Strings.Lower | backend/ai_module.js:3 | Lower-casing keeps the length and maps each code point by the letter table. |
| Strings.LowerIdempotent | backend/ai_module.js:3 | Lower-casing twice is lower-casing once. |
| ScanOrder.Insert | backend/server.js:160 | Inserting an entry into a newest-first history keeps it newest first. The result is the old entries plus the new one, as a multiset. |
| ScanOrder.SortNewestFirst | backend/server.js:160 | The sort on `timestamp` descending is a permutation of the history and is newest first. |
| ScanOrder.Latest | backend/server.js:160 | `find().sort({timestamp:-1}).limit(n)` returns min(n, size) entries. They are newest first and are drawn from the history. |
| ScanOrder.LatestIsTop | backend/server.js:160 | Every entry the limit leaves out is no newer than any entry it returns. |
| Server.NewProduct | backend/server.js:61-81 | A new record starts with scan count 0 (backend/models.js:20). It carries the submitted uid and expiry and the ledger's hash. Its image and description are the submitted ones when they are non-empty. |
| Server.Verify | backend/server.js:92-134 | For the non-empty uid that the route's `:uid` segment always carries, the answer is genuine exactly when the database answers and holds the uid, or when the database lacks it and the ledger answers and holds it. The source is `Database` exactly when the database holds the uid. A ledger answer echoes the uid asked for. |
| Server.DatabaseWins | backend/server.js:97-110 | A uid in the database is answered from the database with its fields copied verbatim. The answer does not depend on the ledger's contents or on whether the ledger answers. |
| Server.ChainFallback | backend/server.js:113-128 | A uid only the ledger holds is answered from the ledger: its name, its batch, its expiry formatted as a date, the fixed placeholder image and the fixed recovery notice. |
| Server.VerifyEchoesUid | backend/server.js:99-117 | On a well-formed catalogue, every genuine answer names the uid that was asked for. |
| Server.CreatedIsVerified | backend/server.js:61-110 | A product just stored is verified from the database. It shows the submitted fields, with the image and description defaulted when empty. |
| Server.Bump | backend/server.js:141 | `$inc` keeps the set of uids. It raises the counter of the named uid by exactly one, changes no other field and no other record, and changes nothing for an unknown uid. |
| Server.BumpAll | backend/server.js:141 | A run of scans keeps the set of uids. |
| Server.ScanCountsAdd | backend/server.js:141 | After a run of scans, each product's counter has grown by exactly the number of scans of its uid. |
| Server.NewestFirstRecords | backend/server.js:30 | The listing has one record per uid in the creation order, and the most recently created comes first. |
| Server.ListsEachOnce | backend/server.js:30 | Listing a catalogue along its repetition-free creation order shows every record exactly once and shows only stored records. |
| Server.NewestFirstAppend | backend/server.js:30 | A newly created product goes to the front of the listing, and the rest of the listing is unchanged. |
| Server.StoreKeepsShape | backend/server.js:83 | Storing a record with a new, non-empty uid keeps the catalogue, the creation order and the listing consistent with each other. |
| Server.Backend.constructor | backend/server.js:21-22 | The service starts over the stores as it finds them: any well-formed catalogue with its creation order, any scan history, and a ledger that may hold attestations the database lacks. |
| Server.Backend.ListProducts | backend/server.js:27-35 | `products` lists every stored product exactly once (as many entries as products) and lists nothing else. |
| Server.Backend.CreateProduct | backend/server.js:38-89 | A uid already in the database gives `DuplicateUid`, and neither store is written. A throwing ledger write gives `ChainFailed`, and nothing is written. Otherwise the ledger records the product first. An empty uid is then always `Rejected`, and no product is stored. Any other uid is stored with the ledger's hash, the QR image of the client URL and the defaulted fields, goes to the front of the listing, and is answered with the hash. |
| Server.Backend.Store | backend/server.js:83 | `save()` of a valid new record adds it under its uid and puts it at the front of the listing. Everything else is unchanged. |
| Server.Backend.RecordScan | backend/server.js:138-155 | The counter of the scanned uid rises by one, and nothing else in the catalogue changes. Exactly one history entry is appended, even for an unknown uid. Its location defaults to "Không xác định". |
| Server.Backend.ScanHistory | backend/server.js:158-165 | `scan_history` returns min(50, size) entries. They are newest first and are drawn from the history. |
| Responder.DisplayName | backend/ai_module.js:4 | The name shown is never empty. It is the given product name when one is given, and otherwise "Sản phẩm". |
| Responder.TopicOf | backend/ai_module.js:7-21 | The chosen keyword group matches the question, and no group tried before it matches. |
| Responder.Answer | backend/ai_module.js:2-25 | Every answer contains the (possibly defaulted) product name. The answer is a total function of its two inputs. |
| Responder.TemplateNames | backend/ai_module.js:8-24 | Each of the six answer templates contains the product name it was given. |
| Responder.FirstMatchWins | backend/ai_module.js:7-21 | Any matching group that no earlier matching group precedes is the one whose answer is returned. |
| Responder.PriceFirst | backend/ai_module.js:7-9 | A question naming a price gets the price answer, whatever other keywords it holds. |
| Responder.ExpiryKeywords | backend/ai_module.js:10-12 | Any one of "hạn sử dụng", "hsd" or "date" picks the expiry answer, unless a price is also named. |
| Responder.FallbackIffNoKeyword | backend/ai_module.js:23-24 | The hotline answer is chosen exactly when no keyword group matches. |
| Responder.IgnoresCase | backend/ai_module.js:3 | A question and its lower-cased form get the same answer. |
| Responder.PriceExample | backend/ai_module.js:7-8 | A question starting with "GIÁ" in capitals gets the price answer. |
| Responder.FallbackExample | backend/ai_module.js:24 | The greeting "xin chào" matches no keyword and gets the hotline answer. |
| Client.ExtractUid | frontend/src/App.jsx:96 | A text without "uid=" is taken whole. Otherwise the uid is the piece after the first "uid=" up to the next one, and it holds no "uid=". |
| Client.QrRoundTrip | frontend/src/App.jsx:253 | Scanning the URL built from the origin and the uid gives back the uid, when neither contains "uid=". |
| Client.QrCutsAtInnerMarker | frontend/src/App.jsx:253 | A uid that itself contains "uid=" comes back cut at its own "uid=". |
| Client.ScannedQrFindsProduct | frontend/src/App.jsx:253 | Scanning a stored product's QR code leads to that product's database record. |
| Client.Without | frontend/src/App.jsx:265 | Removing an id keeps exactly the other entries, each as many times as before, in their order. |
| Client.WithoutAbsent | frontend/src/App.jsx:265 | Removing an id that is not in the list leaves the list as it was. |
| Client.WithoutAppend | frontend/src/App.jsx:264-266 | Removing an id after appending it gives the same list as removing it from the original. |
| Client.Toggled | frontend/src/App.jsx:263-266 | Toggling flips whether the id is hidden and keeps every other id's membership. |
| Client.ToggleTwice | frontend/src/App.jsx:264-266 | Toggling an id twice restores the set of hidden ids. If the id was not hidden, the exact list comes back. If it was hidden, the id moves to the end. |
| Client.VisibleProducts | frontend/src/App.jsx:467 | The consumer list is the catalogue minus the hidden ids, with the others in their original order. |
| Client.UserPage.constructor | frontend/src/App.jsx:453-469 | The consumer page opens on the list view with an empty id box. Its list is the server's catalogue without the hidden products. |
| Client.UserPage.TypeUid | frontend/src/App.jsx:585 | Typing sets the id box. |
| Client.UserPage.BackToList | frontend/src/App.jsx:493 | The detail view's back button returns to the list view. |
| Client.UserPage.Verify | frontend/src/App.jsx:471-486 | The target is the argument, or the typed id when the argument is empty. An empty target and a hidden target are refused without a lookup or any change. Otherwise the detail view opens exactly when the server says genuine, showing the answer with the target as uid. In that case one scan is recorded from "Web Client", and the detail view is on screen whenever the outcome is `Shown`. |
| Client.AdminPage.constructor | frontend/src/App.jsx:236-238 | The admin page starts from the stored hidden list. |
| Client.AdminPage.ToggleHide | frontend/src/App.jsx:263-269 | The eye button replaces the hidden list by its toggle. |
| Client.AdminPage.HandleCreate | frontend/src/App.jsx:248-261 | The form is submitted only with the id, name and batch filled in, as its `required` fields make the browser insist (frontend/src/App.jsx:297-321). Submitting it succeeds exactly when the uid is new and the ledger write succeeds. On success the store gains exactly the record built from the form, whose QR image encodes the URL built from the page's origin and the uid, and whose hash is the ledger's. The product goes last in the creation order and every other record is unchanged. On failure the catalogue and order are unchanged. The history is never touched, and the ledger changes only by the attestation written when the uid was new and the write answered. |
| Navigation.Render | frontend/src/App.jsx:715-817 | The screen drawn never crashes once the logout icon is imported. The admin page is drawn exactly on the admin page with the session open. |
| Navigation.RenderAsWritten | frontend/src/App.jsx:288 | As the code stands, drawing crashes exactly when the admin page would be shown. Every other state draws what the corrected render draws. |
| Navigation.LoginCrashesAsWritten | frontend/src/App.jsx:761-767 | As the code stands, opening the login page and submitting "admin"/"123" ends in a crash. |
| Navigation.LoginShowsAdmin | frontend/src/App.jsx:761-767 | With the icon imported, the same two clicks show the admin page. |
| Navigation.StepKeepsConsistent | frontend/src/App.jsx:761-767 | Every click keeps the rule that the admin page is shown only with the session open. Only submitting "admin"/"123" opens the session or enters the admin page. |
| Navigation.AdminNeedsLogin | frontend/src/App.jsx:761-767 | After any sequence of clicks from the first load, the session is open only if "admin"/"123" was submitted at some point. |
| Navigation.WrongCredentialsChangeNothing | frontend/src/App.jsx:767 | Wrong credentials change neither the page nor the session. |
| Navigation.LogoutClosesSession | frontend/src/App.jsx:809-814 | Logging out from the admin page closes the session and returns home. |
| Navigation.App.constructor | frontend/src/App.jsx:665-666 | The client opens on the home page with the session closed. |
| Navigation.App.Handle | frontend/src/App.jsx:676-817 | For the clicks the browser lets through (a login only with both fields filled in), each click moves the page and session exactly as the step function says. The wrong-password alert appears exactly when the login form is submitted with other credentials. |

## Left out

- Express setup, CORS, `listen`, the database connection and the ledger connection: process plumbing with no rules.
- The document database's query engine.
  - `findOne`, `find().sort().limit()`, `$inc` and `save()` are operations on a map and a sequence.
  - A filter with an undefined `uid` (which matches any document) is not modelled: an absent field is the empty string.
- The ledger's internals. Its source is not part of this model.
  - It is a map from uid to name, batch and expiry that `CreateProduct` writes. A throwing write is the `chainReply` parameter.
  - What the ledger returns for an unknown uid is taken to be "no record".
  - Server.Backend.CreateProduct: what the ledger does with a second write for a uid it already holds is not known. The model overwrites the attestation. This happens for every uid that the ledger holds and the database lacks, such as a record the database lost, and for an empty uid after a `Rejected` create.
- QR image generation: a function-valued constant `qrEncode`. Its image format is not modelled.
- Server.Backend.CreateProduct: two failures that answer status 500 are not modelled. The duplicate-check lookup (backend/server.js:43) can throw before anything is written. The QR encoder (backend/server.js:58) can throw after the ledger write, for a text too long for a QR code, leaving an attestation and no product. The model's lookup always answers and `qrEncode` is total.
- Dates and locales: `toLocaleDateString`, `toLocaleString` and the date parse in the admin form are uninterpreted functions or parameters.
- Server.Backend.RecordScan: the displayed time and the `timestamp` come from one clock reading `now`. The code reads the clock twice, once for `time` and once for the schema default of `timestamp`.
- Concurrency: operations are sequential, so the race between the duplicate check and the insert, and concurrent `$inc`, are not modelled.
- Server.Backend.ListProducts and Server.Backend.ScanHistory: a failed database read is not modelled. It makes `products` answer status 500 (backend/server.js:32-34) and `scan_history` answer an empty list (backend/server.js:162-164).
- Server.Backend.RecordScan and Server.Backend.CreateProduct: a database write that fails for a reason other than the `required` uid constraint is not modelled. Such failures make `record_scan` answer "error" and `create_product` answer 500.
- Strings.Lower: `toLowerCase` is modelled only for ASCII, Latin-1 and the letters of the Vietnamese alphabet, which covers every keyword. Other scripts and Unicode normalisation are not modelled, and other code points are left unchanged.
- Responder.Answer: a question that is not a string (which makes `toLowerCase` throw) is not modelled.
- The client's `fetch` wrappers and the HTTP layer:
  - A failed lookup is `Reach` with a store down, which gives `NotFound`; that matches the wrappers, which turn a network error into `is_valid: false`.
  - A lost `record_scan` request is not modelled; the scan is always delivered.
  - A uid with characters that change the request path is not modelled.
- React rendering, styles, the camera scanner component, the chat widget and the product-image markup.
- `localStorage`: the admin page's hidden list mirrors the stored list. The consumer page receives that list as its `hidden` parameter.
- The scanner's `onScan` is the composition `UserPage.Verify(ExtractUid(text))`. It is not a separate member.
- The admin page's `loadData` and `loadHistory` are the calls `ListProducts` and `ScanHistory`. The success alert and form reset are view-only.
- Navigation.App.Handle: the login form is submitted only with both fields filled in, as their `required` attributes make the browser insist (frontend/src/App.jsx:775, 785), so `Handle` requires a non-empty user and password for a login.
- Navigation.App.Handle: the consumer page's home button is taken to be available whenever the consumer page is shown. In the code it is drawn only in the list view; the detail view first returns to the list with `BackToList`.

## Findings

| source | as written | input that shows it | evidently intended | confidence | as-written member | corrected member |
|---|---|---|---|---|---|---|
| frontend/src/App.jsx:288 | The admin page's logout button draws `<LogOut …/>`, but `LogOut` is neither imported from the icon library (frontend/src/App.jsx:3-22 imports `LogIn` and no `LogOut`) nor defined. Drawing the admin page throws, and with no error boundary the whole client is unmounted. | Click the business button, then submit "admin"/"123". | `LogOut` is imported next to `LogIn`. The admin page is drawn, and its logout, create and hide controls can be used. | high; not executed | Navigation.RenderAsWritten, Navigation.LoginCrashesAsWritten | Navigation.Render, Navigation.LoginShowsAdmin |

The rest of the model follows the corrected render: `Navigation.Step` accepts the logout click only when `Render` draws the admin page, and `Client.AdminPage` models an admin page that can be drawn.

