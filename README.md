# Lead CRM persistence, demo seeding and payload decompression in Dafny

This project models three parts of a small lead-management CRM in Dafny:

- **The SQLite persistence layer** (`database.js`). It has three tables: `clients`, `leads` and `lead_activities`. The prepared statements over them are grouped as `clientOps`, `leadOps` and `activityOps`.
  - `Tables` (tables.dfy) models a table with an `AUTOINCREMENT` key and a `created_at` timestamp. It also models the relational operations the statements perform: COUNT of a WHERE, `.get()` of a WHERE, `.all()` ordered by `created_at DESC`, UPDATE over the matching rows, and DELETE over the matching rows.
  - `Database` (database.dfy) holds the class `Store`. It has the three tables and the `sqlite_sequence` counter of each, and every writing statement is one of its methods. The reading statements are functions of the tables. The schema's NOT NULL and UNIQUE constraints are the error paths of the writing methods.
- **The demo seeding script** (`setup-demo.js`). `DemoSetup.SetupDemo` (setup_demo.dfy) runs it against a `Store`. If the demo email is already there, it does nothing. Otherwise it creates the demo client with a hashed password and inserts the five sample leads in array order, all owned by the new client id.
- **The `/decompress` HTTP handler** (`server.js`). `Decompress` (decompress.dfy) models it as a function from the parsed request body to a response variant. First it picks where the payload is: `base64`, then `data._handle`, then `_handle.buffer`. Then it classifies the bytes by the gzip magic number (ID1 = 0x1F, ID2 = 0x8B, section 2.3.1 of RFC 1952) and by an XML marker.

Conventions:

- A NULL bound to a statement parameter is `None`.
- `CURRENT_TIMESTAMP` is a natural number `now` that the caller passes in. It never decreases from one statement to the next; a ghost `clock` in the store enforces this.
- The password hash is a function parameter of `SetupDemo`. It stands for the hash that this run of `bcrypt.hash` produced.
- `SetupDemo` takes one timestamp per statement it issues: the client insert and each of the five lead inserts read the clock separately.
- The buffer and zlib calls are opaque functions in `Decompress.Env`. In `Env`, `None` stands for a thrown exception.

The schema's default and the statements disagree in one place, and the model follows the statements. The schema gives `status` the default `'new'` (database.js:24). But `leadOps.create` and `leadOps.update` both name the `status` column explicitly, so a lead written with a NULL status stores NULL. The default never applies through these statements. `status` is also free text: no CHECK constrains it to the five values `getStats` counts.

## Model

| member | source | states |
|---|---|---|
| Tables.Count | database.js:92 | a COUNT is at most the number of rows, and is 0 exactly when no row matches |
| Tables.First | database.js:50-52 | `.get()` returns a matching row of the table, and returns nothing exactly when no row matches |
| Tables.NewestFirst | database.js:66-68 | the selection holds exactly the matching rows, one entry per match |
| Tables.UpdateWhere | database.js:74-84 | an UPDATE keeps the number of rows and every row's key and creation time |
| Tables.DeleteWhere | database.js:86-88 | a DELETE removes exactly the matching rows and keeps every other row |
| Tables.InsertKeepsWellFormed | database.js:10 | an insert with the next AUTOINCREMENT value keeps ids strictly increasing and at most the counter, and keeps timestamps ordered |
| Tables.DeleteKeepsWellFormed | database.js:19 | deleting rows keeps the surviving ids increasing and does not lower the counter, so ids are never reused |
| Tables.UpdateWhereMiss | database.js:74-84 | an UPDATE whose WHERE matches nothing leaves the table unchanged |
| Tables.DeleteWhereMiss | database.js:86-88 | a DELETE whose WHERE matches nothing leaves the table unchanged |
| Tables.CountAtMostOne | database.js:19 | a WHERE that fixes the primary key matches at most one row |
| Tables.FirstIsOnlyMatch | database.js:70-72 | the only row matching a WHERE is the row `.get()` returns |
| Tables.NewestFirstOrdered | database.js:67 | on a table kept in insertion order, the selection comes out with `created_at` non-increasing |
| Tables.CountWithin | database.js:90-99 | counting a condition inside a client's selection equals counting "owned and condition" over the whole table |
| Tables.CountAppend | database.js:92 | COUNT over two row ranges is the sum of the two counts |
| Tables.NewestFirstAppend | database.js:109-111 | rows appended later come before all earlier matches in a newest-first selection |
| Tables.NewestFirstUpdateDisjoint | database.js:74-84 | an UPDATE of rows outside a selection, which keeps them outside, leaves the selection unchanged |
| Tables.NewestFirstDeleteDisjoint | database.js:86-88 | a DELETE of rows outside a selection leaves the selection unchanged |
| Database.ClientFindByEmail | database.js:50-52 | returns a client whose email is exactly the given string; returns nothing exactly when no client has it |
| Database.ClientFindById | database.js:54-56 | returns the public columns (id, name, email, company, created_at) of the client with that id; returns nothing exactly when no client has that id |
| Database.LeadFindByClientId | database.js:66-68 | returns exactly the leads whose `client_id` is the given one |
| Database.LeadFindById | database.js:70-72 | returns the lead with that id whoever owns it; returns nothing exactly when no lead has that id |
| Database.SumWhenStatus | database.js:93-97 | a status SUM is NULL exactly when there are no rows; otherwise it is the number of rows with that status, which is at most the number of rows |
| Database.LeadGetStats | database.js:90-99 | `total` is 0 exactly when the client owns no lead, and exactly then all five status SUMs are NULL |
| Database.ActivityFindByLeadId | database.js:109-111 | returns exactly the activities of the given lead |
| Database.ClientInsertError | database.js:11-13 | an insert succeeds exactly when name, email and password are non-NULL and the email is new; it fails on UNIQUE(email) exactly when they are non-NULL and the email is taken |
| Database.NewLeadCols | database.js:61-64 | an inserted lead stores the bound values as given, a NULL status included (the `'new'` default never applies), and `updated_at` is the insertion time |
| Database.Edit | database.js:76 | the SET list of update writes the seven bound columns and the current time, and never changes `client_id` |
| Database.SetStatus | database.js:82 | the SET list of updateStatus writes the bound status and the current time, and every other column stays as it was |
| Database.Store.constructor | database.js:8-41 | a new database has three empty tables and zeroed counters, and no statement has read the clock yet (it stands at 0) |
| Database.Store.ClientCreate | database.js:45-48 | when an insert fails the table and counter are unchanged; when it succeeds exactly one row is appended under the next id, which is returned |
| Database.Store.LeadCreate | database.js:61-64 | a NULL `client_id` or name is rejected with the table unchanged; otherwise one lead is appended under the next id, with `updated_at` equal to `created_at` |
| Database.Store.LeadUpdate | database.js:74-78 | a mismatched id or owner gives 0 changes and the table unchanged; a NULL name on a matching row is rejected; otherwise the one matching row is rewritten. The change count is at most 1, and every other client's leads are untouched |
| Database.Store.LeadUpdateStatus | database.js:80-84 | the change count is the number of rows matching id and owner, which is at most 1; no match leaves the table unchanged; every other client's leads are untouched |
| Database.Store.LeadDelete | database.js:86-88 | removes only the rows matching id and owner; the change count is at most 1; no match leaves the table unchanged; activities and counters are untouched |
| Database.Store.ActivityCreate | database.js:104-107 | a NULL `lead_id` or `activity_type` is rejected with the table unchanged; otherwise exactly one activity is appended under the next id |
| Database.DeleteKeepsUpdatedSinceCreated | database.js:28-29 | after a delete, every surviving lead still has `created_at <= updated_at <= now` |
| Database.ChangeCount | database.js:77 | `WHERE id = ? AND client_id = ?` matches 1 row when findById finds the lead and it belongs to that client, and 0 rows otherwise |
| Database.UpdateStatusTouchesOnlyStatus | database.js:80-84 | updateStatus changes only `status` and `updated_at`, and only in the row matching id and owner |
| Database.UpdateTouchesOnlyEditableColumns | database.js:74-78 | update sets the seven editable columns and `updated_at` of the matching row; it keeps `id`, `client_id` and `created_at`; other rows are unchanged |
| Database.OtherOwnersUnaffectedByUpdate | database.js:74-84 | after an owner-scoped update, every other client's lead list and statistics are the same |
| Database.OtherOwnersUnaffectedByDelete | database.js:86-88 | after an owner-scoped delete, every other client's lead list and statistics are the same |
| Database.UpdateSeenByFindById | database.js:70-78 | after its owner updates a lead, findById returns the lead with the new columns |
| Database.DeleteRemovesOnlyThatLead | database.js:86-88 | a delete by the owner removes exactly one row; findById no longer finds it; every other lead survives |
| Database.EmailMatchesAtMostOne | database.js:12 | under UNIQUE(email), at most one client matches an email, and one matches exactly when findByEmail finds it |
| Database.ClientFindByIdIgnoresPasswords | database.js:55 | findById gives the same answer whatever passwords are stored |
| Database.LeadsNewestFirst | database.js:67 | findByClientId lists leads with `created_at` non-increasing |
| Database.ActivitiesNewestFirst | database.js:110 | findByLeadId lists activities with `created_at` non-increasing |
| Database.ActivityHistoryKept | database.js:103-112 | appending activities only puts new entries in front of a lead's history and never changes the old ones |
| Database.StatsAreCounts | database.js:90-99 | `total` is the number of the client's leads; each status column is the count of the client's leads with that status, or NULL when the client has no leads |
| Database.StatusCountsBound | database.js:93-97 | the five status counts add up to at most the number of leads, with equality exactly when every lead's status is one of the five |
| Database.StatsStatusSum | database.js:90-99 | the five getStats columns sum to at most `total`, with equality exactly when each of the client's leads has one of the five statuses |
| DemoSetup.SetupDemo | setup-demo.js:16-105 | if the demo email exists, nothing is written. Otherwise one demo client is appended with the hashed password at the first statement's timestamp. Then the five sample leads follow in array order under consecutive ids, each at its own statement's timestamp, all owned by the new client id. Afterwards exactly one client has the demo email, and a fresh seed's getStats reads 5/2/1/1/1/0 |
| DemoSetup.InsertSampleLeads | setup-demo.js:94-105 | the five sample leads are appended in array order under the next five ids, lead `i` at its own statement's timestamp and owned by the given client; clients and activities are untouched |
| DemoSetup.FreshSeedStats | setup-demo.js:16-105 | seeding a newly created database, at any non-decreasing clock readings, gives the demo client getStats total 5, new 2, contacted 1, qualified 1, converted 1, lost 0 |
| DemoSetup.SetupDemoTwice | setup-demo.js:16-25 | a second run reports that the client exists and writes nothing, leaving one demo client and the five leads of the first run |
| DemoSetup.DemoLeadRowsShape | setup-demo.js:44-105 | the seeding writes five leads with ids `seq+1 .. seq+5`, each owned by the new client and carrying its sample's name and status |
| DemoSetup.DemoRowsCounts | setup-demo.js:45-105 | every seeded lead is owned by the new client, and the number of seeded leads with a status is the number of samples with that status |
| DemoSetup.DemoStatsColumns | setup-demo.js:45-91 | after a fresh seed, `total` is 5 and each status column is the number of sample leads with that status |
| DemoSetup.DemoStats | setup-demo.js:45-91 | after a fresh seed, getStats for the demo client is total 5, new 2, contacted 1, qualified 1, converted 1, lost 0 |
| Decompress.HandleDecompress | server.js:1-73 | the 400 for a missing format is sent exactly when no payload shape is found; text is passed through only if it looks like XML; a refusal reports three byte positions; an undefined or null body is the 500 |
| Decompress.ReadBytes | server.js:10-26 | the base64 format yields exactly what base64 decoding yields. The two buffer formats yield only what `Buffer.from` gives for a defined value: on success, format 2 reads `_handle.buffer.data` and format 3 reads `buffer.data` |
| Decompress.Classify | server.js:36-63 | the result is the decompressed text or the 500 exactly when the bytes carry the gzip magic number; a pass-through is the payload's own text and looks like XML; a refusal carries the first three bytes of a payload that does not look like XML |
| Decompress.SelectFormat | server.js:11-34 | a payload branch is taken only on a truthy value. The base64 format is chosen exactly when `base64` is truthy and carries that field. Format 2 carries `data._handle` and format 3 carries `_handle.buffer` |
| Decompress.N8nHandleBytes | server.js:16-20 | with no truthy `base64` and truthy `data` and `data._handle` holding a buffer, the response is the classification of `Buffer.from(data._handle.buffer.data)`, or the 500 when that payload is undefined or `Buffer.from` throws |
| Decompress.DirectBufferBytes | server.js:21-25 | when neither earlier format applies and `_handle` and `_handle.buffer` are truthy, the response is the classification of `Buffer.from(_handle.buffer.data)`, or the 500 when that payload is undefined or `Buffer.from` throws |
| Decompress.Includes | server.js:45 | `includes` holds exactly when some window of the text equals the pattern |
| Decompress.GzipMagicOnly | server.js:39-40 | the bytes count as gzip exactly when there are at least two, byte 0 is 0x1F and byte 1 is 0x8B; the third byte (CM) never changes the verdict |
| Decompress.GzipAlwaysDecompressed | server.js:57-63 | gzip bytes are always gunzipped (a 500 if that throws) and are never passed through or refused |
| Decompress.XmlPassedThrough | server.js:43-48 | non-gzip bytes whose text contains `<?xml` are returned unchanged as text |
| Decompress.EnvelopePassedThrough | server.js:43-48 | non-gzip bytes whose text contains `<s:Envelope` are returned unchanged as text |
| Decompress.OtherPayloadsRefused | server.js:50-54 | non-gzip bytes with neither XML marker give the 400 carrying the first three bytes; inputs shorter than two bytes are never gzip |
| Decompress.Base64FieldWins | server.js:11-14 | a truthy `base64` field alone decides the response, whatever `data` and `_handle` hold |
| Decompress.N8nHandleBeforeDirectBuffer | server.js:16-26 | without `base64`, a truthy `data._handle` decides the response, whatever the top-level `_handle` holds |
| Decompress.NoFormatNoDecoding | server.js:11-34 | a body with no truthy `base64`, no truthy `data` with a truthy `data._handle`, and no truthy `_handle` with a truthy `_handle.buffer` gets the 400 for a missing format, and no decoder is consulted |
| Decompress.N8nHandleWithoutBufferFails | server.js:18 | an n8n handle without `buffer` throws on `.buffer.data`, giving the 500 |
| Decompress.PayloadReadFailureFails | server.js:10-34 | whatever throws while the payload is read, in any of the three formats, gives the 500 |
| Decompress.BufferWithoutDataFails | server.js:18-25 | a buffer object without `data` makes `Buffer.from(undefined)` throw, giving the 500 in both buffer formats |

## Left out

- The SQLite engine itself is not modelled: `db.exec`, the database file path, and `module.exports`. The store starts from empty tables.
- Foreign keys (database.js:30, 39) are not enforced. Whether they are depends on an engine setting, so no statement fails on a dangling `client_id` or `lead_id`, and deleting a lead neither cascades nor is rejected.
- DemoSetup.SetupDemo: the getStats figure is stated only when no earlier lead already carries the new client id. Without foreign keys, nothing rules out such a lead in an arbitrary database. For a newly created database, DemoSetup.FreshSeedStats states the figure outright.
- AUTOINCREMENT exhaustion at the 64-bit rowid limit is not modelled; ids are unbounded naturals.
- Wall-clock time is not modelled: timestamps are naturals supplied by the caller.
- Among leads or activities with equal `created_at`, the model lists the later insertion first. That is one of the orders SQLite may return; the ordering lemmas state only `created_at` non-increasing.
- SQL type affinity and comparisons of values of different storage classes are not modelled; columns hold strings and integers as declared.
- `bcrypt.hash` draws a random salt, so two calls give different hashes. The model does not capture the salt or the algorithm: the `hash` parameter stands for the hash this one run obtained. A hash failure and the `catch`/`process.exit(1)` path (setup-demo.js:111-114) are left out. The store statements the script issues are proved not to fail, assuming nothing else writes to the database during the run. The `await bcrypt.hash` (setup-demo.js:28) yields between the existence check (setup-demo.js:17) and the client insert (setup-demo.js:31). If another process registers the demo email in that window, the insert fails on UNIQUE(email) and the script exits through its catch. The model does not cover this interleaving.
- Console output in setup-demo.js and server.js is not modelled. So is the `Object.keys`/`JSON.stringify` logging, except that `Object.keys` of an undefined or null body throws (server.js:4), which the model keeps as the 500.
- `Buffer.from(v, 'base64')`, `Buffer.from(v)`, `toString('utf-8')` and `zlib.gunzipSync` are opaque functions. Which inputs make them throw is left to them.
- The JSON bodies of the 400 and 500 responses (`receivedKeys`, `hint`, `expectedGzipHeader`, `message`, `stack`) and the `text/xml` content type are not modelled. Only the response variant is kept, with the first three bytes in the gzip refusal.
- JavaScript strings are sequences of characters here, not UTF-16 code units, and JSON numbers are reals (never NaN).
- Express routing is not modelled (`app` and `zlib` are not bound in server.js). The authentication routes and the lead/activity route handlers are not part of this model.
- The React client and its HTTP service are not part of this model.
