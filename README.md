# IP inventory: a verified model of the server and the dashboard core

This project models the core of a small IP-address management application.
The application has three parts:

- an Express server (`server/index.js`) that keeps IP entries and users in
  JSON files;
- a JSON Web Token gate in front of every route except login;
- a React dashboard that fetches the list, filters it and counts it.

The model covers the following:

- **IP inventory** (module `IpInventory`). It models list, create, update
  and delete on the stored list of entries. They are methods of a class
  `IpStore` whose `ips` field stands for `ips.json`. The records are JSON
  objects with their keys in insertion order (module `Records`). Object
  spread `{...a, ...b}` and keyed assignment are modelled on that ordered
  list of fields.
- **Export** (module `CsvExport`). It models `GET /api/export/:format`: the
  JSON document, and the CSV text with its header line taken from the first
  entry's keys. A cell is quoted when it holds a string containing a comma.
  There are two error replies: 404 for no data and 400 for an unknown
  format. A quote-aware reader shows the conditions under which the CSV
  reads back to the text of each stored value. Types are not recovered:
  `null` and `""` both read back as an empty field.
- **Authentication** (module `Auth`). It models how the middleware parses
  the `Authorization` header, and its 401/403/pass decision. It models
  seeding the default administrator, and register and login over a class
  `UserStore` that stands for `users.json`.
- **Dashboard** (modules `Dashboard` and `StatsCards`). It models the
  `filteredIPs` predicate with its default filters, and the stats cards'
  total and per-status counts.
- **Client state** (module `UseIPs`). It models `apiCall`'s error rule and
  the `useIPs` state transitions, as a class `IpList` with the hook's
  `ips`, `loading` and `error` state.
- **Server and client together** (module `Consistency`). It shows that when
  the client's local list starts equal to the server's stored list, it stays
  equal after each operation and its reply. For update this also needs the
  id to name at most one entry. This assumes this client is the only writer
  and makes one request at a time.

Outside effects are parameters:

- The clock reads (`new Date().toISOString()`, `Date.now().toString()`) are
  passed in as strings.
- bcrypt hashing is done by the caller. Login receives the password
  comparison as a function.
- `jwt.verify` and `jwt.sign` are functions passed in.
- File reads and writes become the class fields.
- Each client operation is given the HTTP reply its request received.

The model follows the code in these details:

- A created entry's `createdAt` and `updatedAt` come from two separate
  clock reads. `NewEntry` takes them as two parameters, so they are not
  assumed equal.
- A create body may carry its own `id`, and the body's `id` replaces the
  generated one (`IpInventory.NewEntryLookup`).
- An update body may overwrite `id` and `createdAt`. Only `updatedAt` is
  forced (`IpInventory.MergedLookup`). Nothing makes `updatedAt` increase.
- CSV rows are not truncated or padded to the header. Each row lists its
  own entry's values in that entry's key order
  (`CsvExport.CsvReadsBack`).
- Delete removes every entry with the id, not just one
  (`IpInventory.WithoutIdMeaning`). Update changes only the first such
  entry, and the client replaces all of them. When ids repeat, the two
  lists diverge (`Consistency.ClientUpdateDivergesOnDuplicateIds`).

## Model

| member | source | states |
|---|---|---|
| Seqs.FirstIndex | server/index.js:196 | `findIndex`: the result is an index where the test holds, with no earlier index where it holds; None exactly when no element passes |
| Seqs.Filter | server/index.js:218 | `filter`: an element is kept exactly when the test holds for it; when every element passes the result is the input itself, and only then is it as long as the input |
| Seqs.FilterIsSubsequence | server/index.js:218 | filtering keeps the order of the kept elements |
| Seqs.FilterMultiplicity | server/index.js:218 | filtering keeps every passing element as often as it occurs and no failing element |
| Text.SplitOn | server/index.js:60 | `split(c)`: at least one part, no part contains the separator, and joining the parts with it gives back the string |
| Text.SplitJoin | server/index.js:60 | splitting undoes joining when no part contains the separator |
| Text.ContainsIffOccurs | src/components/Dashboard/Dashboard.tsx:22-24 | `includes` holds exactly when the needle occurs at some position |
| Text.NatToStringValue | server/index.js:247-249 | a number's decimal digits read back to the number |
| Text.IntToString | server/index.js:247-249 | the rendering of an integer is non-empty, made of digits and a leading minus sign exactly for negative numbers, with no leading zero |
| Text.IntToStringValue | server/index.js:247-249 | `String(n)` reads back to `n`: a non-negative number is its digits alone, a negative one is one minus sign and the digits of its magnitude |
| Records.Lookup | server/index.js:196 | a key is found exactly when it is one of the record's keys, and the value found is stored under it |
| Records.Put | server/index.js:181-182 | assignment keeps the key order and appends a new key at the end |
| Records.PutLookup | server/index.js:181-182 | after `r[k] = v`, `k` holds `v` and every other key holds what it held |
| Records.PutWellFormed | server/index.js:181-182 | assignment keeps the keys distinct |
| Records.SpreadLookup | server/index.js:202-206 | after `{...a, ...b}` each key of `b` has `b`'s value and every other key has `a`'s |
| Records.SpreadKeys | server/index.js:202-206 | a spread keeps `a`'s keys in place, followed by `b`'s new keys in `b`'s order |
| Records.SpreadWellFormed | server/index.js:202-206 | a spread keeps the keys distinct |
| Records.IndexOfId | server/index.js:196 | the index found is the first entry whose `id` is the requested one; None exactly when no entry has it |
| IpInventory.NewEntryLookup | server/index.js:178-183 | the new entry's `createdAt` and `updatedAt` are the server's; every body key has the body's value; `id` is the generated id unless the body sets one; nothing else is present |
| IpInventory.NewEntryKeys | server/index.js:178-183 | the new entry has distinct keys: `id` first, then the body's other keys in order, then `createdAt` and `updatedAt` unless the body already placed them |
| IpInventory.MergedLookup | server/index.js:202-206 | the updated entry's `updatedAt` is the server's, a body key takes the body's value, every other key keeps its stored value |
| IpInventory.MergedKeys | server/index.js:202-206 | the updated entry has distinct keys and keeps the stored keys in place |
| IpInventory.WithoutIdMeaning | server/index.js:218-222 | the filtered list is an ordered sub-list without the id, keeps every other entry as often as it occurred, and is as long as the original exactly when no entry has the id |
| IpInventory.IpStore.List | server/index.js:166-173 | the reply is the stored list |
| IpInventory.IpStore.Create | server/index.js:175-191 | the reply is the new entry and the stored list gains it at the end |
| IpInventory.IpStore.Update | server/index.js:193-213 | 404 exactly when no entry has the id, with the list unchanged; otherwise the first such entry is replaced by its merge with the body and the reply is that merge |
| IpInventory.IpStore.Delete | server/index.js:215-229 | 404 exactly when no entry has the id, with the list unchanged; otherwise every entry with the id is removed and the reply is the success message |
| CsvExport.Export | server/index.js:232-262 | `json` always gives the list; `csv` gives 404 exactly for an empty list and the CSV text otherwise; any other format gives 400 |
| CsvExport.CsvOfOneRecord | server/index.js:246-251 | the one input `[{a: "1", b: "x,y"}]` exports as `a,b\n1,"x,y"`: its header line, then its row with the comma-holding string quoted |
| CsvExport.CellQuotesOnlyCommas | server/index.js:248 | for every value, the cell is the value's text written bare, or in quotes exactly when that text holds a comma |
| CsvExport.CellEncodes | server/index.js:247-249 | for a value whose string holds no quote or line break, the cell encodes the value's text for the quote-aware reader (bare, or quoted when it holds a comma) and has no line break |
| CsvExport.ReadFieldsJoin | server/index.js:249 | a row joined from encoded cells reads back, field by field, to the cells' texts |
| CsvExport.CsvReadsBack | server/index.js:246-251 | for non-empty entries whose string values hold no quote or line break and whose first entry's keys hold no comma, quote or line break, the text has one line per entry plus the header; the header reads back to the first entry's keys and each row to the text of each of that entry's values |
| Auth.BearerToken | server/index.js:59-60 | an absent header yields no token; an extracted token is non-empty and holds no space |
| Auth.BearerTokenOf | server/index.js:60 | the token is the second space-separated word, whatever follows it |
| Auth.BearerTokenParts | server/index.js:60 | a token comes only from a header that is a space-free scheme, one space, the token, then nothing or a space |
| Auth.EmptySecondPartNoToken | server/index.js:60-64 | an empty second part (`"Bearer "`, `"Bearer  tok"`) yields no token, so the answer is 401 |
| Auth.NoSpaceNoToken | server/index.js:60-64 | a header without a space yields no token |
| Auth.Authenticate | server/index.js:58-71 | no token gives 401, a token the verifier rejects gives 403, an accepted token passes its claims on |
| Auth.FindByEmail | server/index.js:99 | `users.find(u => u.email === email)`: the first user with that email; None exactly when there is none |
| Auth.UserStore.InitializeDefaultUser | server/index.js:74-89 | an empty user list becomes the default administrator alone, with the hash of "admin123"; a non-empty one is left as it is; emails stay unique |
| Auth.UserStore.Register | server/index.js:129-163 | a known email gives 400 and changes nothing; otherwise a member user is appended and its summary returned; emails stay unique |
| Auth.UserStore.Login | server/index.js:94-127 | every failure is 401 "Invalid credentials"; success exactly when a user has the email and the password matches; the token signs that user's id, email and name |
| Dashboard.DefaultFiltersShowAll | src/components/Dashboard/Dashboard.tsx:13-26 | with the initial filters every entry is shown, in order |
| Dashboard.FilteredIPsOrderAndCounts | src/components/Dashboard/Dashboard.tsx:19-26 | the shown entries keep their order, and an entry is shown as often as it occurs when it passes and never otherwise |
| Dashboard.FilteredIPsIdempotent | src/components/Dashboard/Dashboard.tsx:19-26 | filtering the shown entries again changes nothing |
| Dashboard.ShownEntriesPass | src/components/Dashboard/Dashboard.tsx:20-24 | every shown entry has the selected status, the selected category and, for a non-empty search, a match in ip, hostname or description |
| Dashboard.FieldCase | src/components/Dashboard/Dashboard.tsx:23-24 | two entries whose field texts differ only in letter case are found by the same searches |
| Dashboard.SearchCase | src/components/Dashboard/Dashboard.tsx:22-24 | hostname and description matching ignores letter case; ip matching does not |
| StatsCards.StatusCount | src/components/Dashboard/StatsCards.tsx:12-15 | a per-status count never exceeds the number of entries |
| StatsCards.ComputeStats | src/components/Dashboard/StatsCards.tsx:10-16 | the total is the number of entries and bounds every count |
| StatsCards.StatusCountMeaning | src/components/Dashboard/StatsCards.tsx:12-15 | a count counts exactly the entries with that status; it equals the total exactly when all entries have it |
| StatsCards.StatusCountsAddUp | src/components/Dashboard/StatsCards.tsx:10-16 | when every status is one of the four declared ones, the four counts add up to the total |
| UseIPs.ErrorMessage | src/hooks/useAPI.ts:20-23 | the thrown message is the body's `error` when truthy, otherwise "API call failed" |
| UseIPs.ApiCall | src/hooks/useAPI.ts:10-26 | a value exactly for a 2xx reply with a JSON body; a failed JSON reply throws its error message |
| UseIPs.ReplaceById | src/hooks/useAPI.ts:69 | every entry with the id becomes the returned entry; the others are kept in place |
| UseIPs.DeleteAfterReplace | src/hooks/useAPI.ts:69-79 | deleting an id after replacing its entries by one carrying the same id is the same as deleting it |
| UseIPs.IpList.constructor | src/hooks/useAPI.ts:32-34 | the hook starts with no entries, loading, and no error |
| UseIPs.IpList.FetchIPs | src/hooks/useAPI.ts:37-48 | success sets the list and clears the error; failure keeps the list and records the message; loading ends false |
| UseIPs.IpList.AddIP | src/hooks/useAPI.ts:50-61 | success appends the returned entry; failure is rethrown and changes nothing |
| UseIPs.IpList.UpdateIP | src/hooks/useAPI.ts:63-74 | success replaces every entry with the id; failure is rethrown and changes nothing |
| UseIPs.IpList.DeleteIP | src/hooks/useAPI.ts:76-83 | success removes every entry with the id; failure is rethrown and changes nothing |
| Consistency.ClientUpdateMatchesServer | src/hooks/useAPI.ts:69 | when ids are unique, the client's replacement by id equals the server's replacement at the found index |
| Consistency.ClientUpdateDivergesOnDuplicateIds | src/hooks/useAPI.ts:69 | with two entries sharing an id, the client replaces both while the server replaces only the first |
| Consistency.SyncedCreate | server/index.js:175-191 | after a create the client's list equals the server's |
| Consistency.SyncedUpdate | server/index.js:193-213 | after an update on unique ids the client's list equals the server's |
| Consistency.SyncedDelete | server/index.js:215-229 | after a delete the client's list equals the server's |
| Consistency.SyncedFetch | server/index.js:166-173 | after a fetch the client's list equals the server's |

## Left out

- Helmet, CORS, rate limiting, the JSON body parser and the port and listen call are HTTP plumbing and not modelled.
- File I/O is not modelled. This includes `readJsonFile` writing the default on a failed read and the 500 "Server error" replies when a read, write or hash throws. The class fields stand for the file contents.
- bcrypt hashing and comparison, token signing and verification, and the 24-hour expiry are cryptographic or time-based. They are functions passed in.
- Clock reads are parameters, so timestamp formats and their order are not modelled.
- The composition of the middleware with each route (`authenticateToken` before every handler except login) is not modelled. The handlers model the code that runs after `next()`.
- `exportData`, the authentication context, the forms, the grid and the rest of the user interface are browser-side code outside the core.
- Records.Value: numbers are modelled as integers. Fractions, exponents and JavaScript's floating-point rendering are not modelled. Nested arrays and objects are not modelled either.
- Records.Put: JavaScript lists integer-like keys ("0", "42") first, in ascending order; the model keeps pure insertion order for every key.
- Text.Lower: only ASCII letters are lower-cased. JavaScript's `toLowerCase` also maps letters of other scripts.
- Dashboard.Shown: a missing or non-string `ip`, and a `hostname` or `description` that is present but not a string, make the browser throw. Here such a field simply does not match. A missing or null `hostname` or `description` is a plain non-match through `?.`, as modelled.
- Auth.UserStore.Register: name, email and password are taken as strings. A missing password, which makes bcrypt throw and the server reply 500, is not modelled.
- UseIPs.IpList.FetchIPs: the non-`Error` fallback "Failed to fetch IPs" is not modelled, because every failure `apiCall` produces is an `Error`. A success payload is taken to be a list, as the server always sends one.
- UseIPs.ApiCall: the request itself (its URL, its headers and the `Bearer` prefix) is not modelled, only how a reply becomes a value or an error.
- CsvExport.CsvReadsBack: stated only for non-empty entries whose string values hold no quote or line break, and whose first entry's keys hold no comma, quote or line break. The code does not escape those characters, so such text does not read back. An empty entry `{}` gives an empty row, which reads as one empty field, not as no fields.
- Concurrent requests are not modelled. The server reads the file, changes the list and writes it back (server/index.js:177-186), and the hook applies each reply to its own list as the reply arrives. Two requests in flight can interleave so that one write undoes the other (a lost update). The `Consistency` methods assume one writer and one request at a time.
