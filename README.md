# tinyapp link shortener — a Dafny model

tinyapp is a small Express/MongoDB URL shortener. A user submits a long URL;
the server normalises it so that it carries a scheme, stores it under a
random short code in the `urls` collection, and later redirects visitors of
`/u/<code>` to it. Records can be listed, shown, edited and deleted.

This project models the two pieces of real logic in `express_server.js`:

- **`checkForHttpPrefix`** (module `Normalizer`, `normalizer.dfy`). The
  regular expression `/^(http|https|ftp):\/\/.*$/` is modelled as it is
  built: `^` anchors at the start, the three alternatives are tried in order,
  `:\/\/` follows, and `.*$` is `DotStarToEnd`. Without the `s` flag, `.` does
  not match a line terminator (`\n`, `\r`, U+2028, U+2029). Without the `m`
  flag, `$` matches only at the end of the input. The contract of `Matches`
  reduces the test to "starts with `http://`, `https://` or `ftp://` (case-sensitive) and
  holds no line terminator".
- **The `urls` collection** (module `LinkStore`, `link_store.dfy`). It is a
  sequence of `Link(shortURL, longURL)` records in insertion order. Of the
  driver calls the handlers make, the three that select by short code are
  modelled as recursive functions: `findOne` is `FindOne`/`FirstIndex`, `update` without `multi` is
  `UpdateFirst`, and `remove(query, 1)` is `RemoveFirst`. Each acts on the
  first record whose code matches exactly (for `remove`, a reading of its
  second argument that "## Left out" qualifies). `insertOne`
  (express_server.js:95) is an append to the sequence, with no uniqueness
  check, and `find().toArray()` (express_server.js:97) is the whole sequence
  in insertion order, rendered as `Urls(urls)`. Short codes are not unique, so
  lemmas describe lookups after each write, both for a fresh code and for a
  duplicated one.
- **The route handlers** (module `Routes`, `routes.dfy`). Class `Server`
  holds the collection in its field `urls`. Each handler that reads or
  writes the collection is a method returning a `Response`: a view name with
  its data, a redirect, or plain text. A handler is one atomic step.
  `Server.Valid()` says every stored long URL carries a scheme; POST, PUT
  and DELETE preserve it, and `FollowShortLink` then only redirects to a URL
  with a scheme. Client methods state four request sequences. Create then
  follow chains the steps the comments at express_server.js:92 and :105
  describe, and update then show those at :143 and :130. Delete then follow
  chains :117 and :105. `UpdateMissing` states what the code itself does for
  an absent code: the `update` at :146 matches nothing and :147 redirects
  anyway. One more, `NewFormShadowed`, shows that GET `/urls/new` never
  reaches its own handler: Express tries routes in registration order, and
  GET `/urls/:id` (registered at :63, before :88) answers every
  `/urls/<segment>` without calling `next()`, so `/urls/new` is answered as
  the detail page of the short code `new`.

The handlers make different choices, and the contracts state each one.
DELETE checks that the code exists before removing; PUT does not check and
always redirects. POST and PUT both normalise the body first. The lookup
routes each pick their own miss response: GET `/urls/:id` and GET `/u/:id`
render `not_found` carrying the requested code, while GET `/urls/show/:id`
sends `Something went wrong!`.

Where the intended behaviour and the code differ, the model follows the
code:

- The function's name, `checkForHttpPrefix` (express_server.js:54), says its
  intent: a string that already starts with a recognised scheme should be
  returned unchanged. The code's regex also rejects such a string when it holds a line
  terminator, and then prepends `http://` (`ExampleNewline`). So
  normalisation is idempotent exactly on inputs without a line terminator
  (`IdempotentIff`).
- The comments on POST `/urls` and GET `/u/:id` (express_server.js:92, 105)
  give the purpose: a submitted link is stored and its short code then
  redirects to it, so fetching a newly created code should yield the new
  record. Codes are not checked for uniqueness, and
  `findOne` sees the first match, so this holds only when the code was not
  already stored (`FindAfterInsert`); `DuplicateShadowsInsert` shows it
  failing with a duplicated code.
- Deletion is modelled with `remove(query, 1)` read as "first match only"
  (see "## Left out"). Under that reading, fetching a deleted code yields
  nothing only when it was stored at most once (`FindAfterRemove`), and
  `DuplicateSurvivesRemove` shows a second record surviving.
- `generateRandomString` takes `slice(2, 8)` (express_server.js:158), aiming
  at a six-character code, so every stored code is meant to be non-empty.
  The code does not ensure this (the digits after `0.` may be fewer than six,
  or none), so the model does not assume it. The generated code is a
  parameter that may be any string, including `""`.

## Model

| member | source | states |
|---|---|---|
| `Normalizer.DotStarToEnd` | express_server.js:56 | the `.*$` tail of the pattern accepts a remainder exactly when it holds no line terminator |
| `Normalizer.Matches` | express_server.js:56 | the regex test, built as `^` at index 0, the alternatives `http`, `https`, `ftp` in order, `://`, then `.*$`, passes exactly when the string starts with `http://`, `https://` or `ftp://` and contains no line terminator |
| `Normalizer.CheckForHttpPrefix` | express_server.js:54-60 | the result always begins with a recognised scheme and ends with the whole input |
| `Normalizer.UnchangedWhenMatching` | express_server.js:56-59 | an input the regex accepts is returned unchanged |
| `Normalizer.PrefixedWhenNotMatching` | express_server.js:55-59 | an input the regex rejects comes back as exactly `http://` followed by the input |
| `Normalizer.IdempotentIff` | express_server.js:54-60 | normalising twice equals normalising once if and only if the input has no line terminator |
| `Normalizer.ExampleBareHost` | express_server.js:54-60 | `example.com` becomes `http://example.com` |
| `Normalizer.ExampleEmpty` | express_server.js:54-60 | the empty string becomes `http://` |
| `Normalizer.ExampleUpperCaseScheme` | express_server.js:56 | the scheme test is case-sensitive: `HTTP://x` gets a second prefix |
| `Normalizer.ExampleNewline` | express_server.js:56 | a scheme-prefixed string containing a newline is rejected and prefixed |
| `Normalizer.ExampleFtp` | express_server.js:56 | an `ftp://` URL without terminators is left unchanged |
| `LinkStore.FirstIndex` | express_server.js:65 | `findOne` finds nothing exactly when no record carries the code; otherwise it finds the first record that does |
| `LinkStore.FindOne` | express_server.js:108-113 | the record found carries the requested code and is the first one that does; nothing is found exactly when no record carries it |
| `LinkStore.UpdateFirst` | express_server.js:146 | `update` replaces the long URL of the first matching record only, keeping its code and every other record; with no match the collection is unchanged |
| `LinkStore.RemoveFirst` | express_server.js:124 | `remove(query, 1)` deletes exactly the first matching record and keeps the order of the rest; with no match the collection is unchanged |
| `LinkStore.FindAfterInsert` | express_server.js:95 | after an append, a code already present resolves as before, a fresh code equal to the new record's resolves to it, and any other fresh code resolves to nothing |
| `LinkStore.DuplicateShadowsInsert` | express_server.js:95 | a record appended under a code already in use is hidden from lookups by the older record |
| `LinkStore.FindAfterUpdate` | express_server.js:146 | after an update, the code resolves to a record with the same code and the new long URL if it was present, and to nothing otherwise |
| `LinkStore.FindOtherAfterUpdate` | express_server.js:146 | an update leaves every other code's lookup result unchanged |
| `LinkStore.FindOtherAfterRemove` | express_server.js:124 | a removal leaves every other code's lookup result unchanged |
| `LinkStore.CountAfterRemove` | express_server.js:124 | a removal of a present code lowers the number of records carrying it by exactly one |
| `LinkStore.FindAfterRemove` | express_server.js:124 | after removing a code stored at most once, it resolves to nothing |
| `LinkStore.DuplicateSurvivesRemove` | express_server.js:124 | with a duplicated code, the second record still resolves after a removal |
| `LinkStore.SchemedAfterInsert` | express_server.js:94-95 | appending a record with a scheme keeps every stored long URL schemed |
| `LinkStore.SchemedAfterUpdate` | express_server.js:145-146 | updating with a schemed long URL keeps every stored long URL schemed |
| `LinkStore.SchemedAfterRemove` | express_server.js:124 | removing a record keeps every stored long URL schemed |
| `Routes.Server.UrlInfo` | express_server.js:63-72 | renders `urls_info` with the first matching record when the code is stored, otherwise `not_found` with the requested code; the collection is not modified |
| `Routes.Server.CreateUrl` | express_server.js:93-102 | appends exactly one record, built from the given code and the normalised long URL, keeps all earlier records, renders `urls_index` with the new collection, and keeps every long URL schemed |
| `Routes.Server.FollowShortLink` | express_server.js:106-115 | redirects exactly when the code is stored, to the first matching record's long URL; otherwise renders `not_found` with the requested code; the collection is not modified; when every stored long URL has a scheme, so does the redirect target |
| `Routes.Server.DeleteUrl` | express_server.js:118-128 | with no matching record, the collection is unchanged and the response is `Something went wrong!`; otherwise exactly the first match is removed, the length drops by one, and the response redirects to `/urls` |
| `Routes.Server.EditForm` | express_server.js:131-141 | renders `urls_show` with the first matching record's code and long URL when the code is stored, otherwise sends `Something went wrong!`; the collection is not modified |
| `Routes.Server.UpdateUrl` | express_server.js:144-148 | sets the normalised long URL on the first matching record only; with no match the collection is untouched; always redirects to `/urls`; keeps every long URL schemed |
| `Routes.CreateThenFollow` | express_server.js:93-115 | POST of any long URL under an unused code, then GET `/u/<code>`, redirects to the normalised long URL |
| `Routes.CreateExampleThenFollow` | express_server.js:93-115 | POST `example.com` under an unused code, then GET `/u/<code>`, redirects to `http://example.com` |
| `Routes.UpdateThenEditForm` | express_server.js:131-148 | PUT on a stored code, then GET `/urls/show/<code>`, shows the same code with the new normalised long URL |
| `Routes.UpdateMissing` | express_server.js:144-148 | PUT `/urls/abc123` when that code is absent redirects to `/urls` and leaves the collection equal to what it was |
| `Routes.DeleteThenFollow` | express_server.js:106-128 | DELETE of a code stored at most once, then GET `/u/<code>`, renders `not_found` with that code |
| `Routes.NewFormShadowed` | express_server.js:63-90 | GET `/urls/new` is answered by the `/urls/:id` handler registered first: with no record coded `new` it renders `not_found` carrying `new`, never the `urls_new` form |

## Left out

- Startup and I/O wiring: loading the environment, building the Express app, body parsing, method override, static files, `app.listen`, and the database connect with its fatal `throw` (express_server.js:3-30, 152-154). These are configuration and I/O.
- Asynchrony: driver callbacks and the global `db` handle. Each handler is modelled as one atomic sequential step. The DELETE handler does not wait for `remove` (express_server.js:124-125), and the PUT handler does not wait for `update` (express_server.js:146-147), before redirecting; the model takes each write as finished when the response is sent, and `UpdateThenEditForm` and `DeleteThenFollow` rely on that.
- `LinkStore.RemoveFirst`: reads the `1` in `remove(query, 1)` (express_server.js:124) as "delete the first match only". With the Node driver's callback API the second argument is an options object, and `1` carries no `single` field, so the driver may delete every record with that code. The driver's source is not part of this model.
- `Routes.Server.DeleteUrl`: removes only the first matching record, following `RemoveFirst`; if the driver removes all matches, a duplicated code would also disappear from lookups after a DELETE, which `DuplicateSurvivesRemove` and the `Count` hypothesis of `DeleteThenFollow` do not capture.
- Driver errors: every store operation is taken to succeed. The `err` branches are not modelled. These are the `err ||` tests in DELETE and GET `/urls/show/:id`, and `res.send(err)` in POST, which would be followed by a second response. The `if (!data) next();` fall-through is not modelled either (express_server.js:82, 96-98).
- The extra fields of a stored document, such as MongoDB's `_id`, which `urls_info` also receives. A record is modelled as its short code and long URL only.
- "First" means the collection's natural order, which the model takes to be insertion order. MongoDB does not promise this order.
- EJS rendering: a view is its name plus its data payload. No HTML is modelled.
- HTTP encoding of redirects: `Redirect(url)` holds the argument passed to `res.redirect` (express_server.js:112, 125, 147), not the percent-encoded `Location` header Express writes from it.
- `generateRandomString` (express_server.js:157-159): it uses `Math.random()` and base-36 float formatting. The code is a parameter of `Server.CreateUrl` and may be any string. No uniqueness is assumed, because the source checks none.
- GET `/` (a fixed redirect) and GET `/urls` (the listing, whose payload is the `urls_index` render that `Server.CreateUrl` models) (express_server.js:75-85). The handler registered for GET `/urls/new` (express_server.js:88-90) is unreachable, because GET `/urls/:id` is registered first and always responds; the request it would serve is modelled by `Server.UrlInfo("new")`, see `NewFormShadowed`.
- `getLongURL` and `getShortURL` (express_server.js:33-52): they are never called.
- JavaScript template-literal coercion of a missing form field to `"undefined"` (express_server.js:94, 145). The submitted long URL is a plain string.
- Strings are sequences of Unicode scalar values. JavaScript strings are UTF-16 code units, and lone surrogates cannot be represented here. No code point the pattern treats specially is affected.
