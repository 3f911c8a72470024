# Tevor service core, modelled in Dafny

This project models the sequential core of the Tevor repair-shop REST API. It has nine pieces:

- the stock ledger, with its look-aside cache (`stockCache`);
- the user directory, with its append-only cache (`userCache`);
- the certificate-header authentication middleware and the module-admin gate;
- construction of part-request records and the open-request listing;
- identifier formatting over per-namespace running counters;
- removal of undefined keys from an object;
- the `Job`, `Stock` and `User` document schemas.

The database is abstracted as Dafny values:

- the `Stock` collection is a `map` keyed by the unique `stockid`;
- the `User` and `PartRequest` collections are sequences in natural order, and `findOne` returns the first match;
- the `Sequence` collection is a `map` from `seqid` to counter.

Code that mutates state is modelled as classes: `StockLedger`, `UserDirectory`, `PartRequestRegistry`, `SequenceStore` and `JsObject`. Their methods carry `modifies` clauses and state the whole new state. The schemas, the access decisions and the `getAll` query are pure functions.

One module per source file:

| file | module | source |
|---|---|---|
| wrappers.dfy | Wrappers | Option / Result |
| sequence_model.dfy | SequenceModel | src/models/SequenceModel.js |
| common.dfy | Common | src/util/common.js |
| stock_model.dfy | StockModel | src/models/StockModel.js |
| stock_controller.dfy | StockController, StockScenarios | src/controllers/StockController.js |
| user_model.dfy | UserModel | src/models/UserModel.js |
| user_controller.dfy | UserController | src/controllers/UserController.js |
| auth.dfy | Auth | src/util/auth.js |
| job_model.dfy | JobModel | src/models/JobModel.js |
| pr_controller.dfy | PRController | src/controllers/PRController.js |

Consequences of the code as written that the model makes explicit:

- **Counter read-back.** A counter-store answer without a document is not reported as an error: `next` falls back to 1 (`|| {}`). With `upsert: true, new: true` that fallback cannot fire in the map model.
- **Part-request listing.** `addNewRequest` sets neither `closed` nor a status. The filter `{ closed: false }` does not match a missing field, so a request it creates is never listed by `getAll` (`NewRequestNotListed`).
- **`cert` uniqueness.** The schema declares `cert` required but not unique, so a certificate lookup returns the first match.
- **Negative balances.** `adjStockBal` passes no `runValidators`, so the `min: 0` bound is not enforced on adjustment.
- **Cache coherence.** `adjStockBal` does not look at `deleted`. Adjusting a soft-deleted item caches it, and later normal lookups serve it (`AdjustedDeletedStockIsServed`).

## Model

| member | source | states |
|---|---|---|
| SequenceModel.NextSeqOf | src/models/SequenceModel.js:20-24 | with no document, or no `nextSeq`, the reported number is 1; otherwise it is the stored `nextSeq` |
| SequenceModel.Bump | src/models/SequenceModel.js:20-23 | one `next(id)` raises the counter of `id` by exactly one; the upsert creates an absent counter; no other id's counter moves |
| SequenceModel.RunStrictlyIncreasing | src/models/SequenceModel.js:20-24 | of two calls for the same id, the later returns strictly more |
| SequenceModel.SequenceStore.Next | src/models/SequenceModel.js:19-25 | the new counters are `Bump` of the old; the result is the new counter, old + 1; a fresh id yields 1 |
| Common.Decimal | src/util/common.js:14 | the template-literal text of a counter is a non-empty digit string without a leading zero (unless the number is 0) |
| Common.DecimalRoundTrip | src/util/common.js:14 | reading the decimal text back gives the number |
| Common.LeadingZerosValue | src/util/common.js:17 | zero padding does not change the value of a digit string |
| Common.PadStart | src/util/common.js:17 | `padStart`: the result has length max(target, length); it ends with the input; every added character is the fill; nothing is truncated |
| Common.FormatIdRoundTrip | src/util/common.js:17 | every `prefix-padded` identifier has that shape and reads back to its running number |
| Common.FormatIdInjective | src/util/common.js:10-18 | distinct running numbers give distinct identifiers under one prefix, whatever the padding |
| Common.PadExamples | src/util/common.js:8-10 | 13 padded to 4 is "0013"; with the default width 8 the id is `JOB-00000013` |
| Common.BlankIdFormat | src/util/common.js:11-17 | with a blank id the identifier is `prefix-` followed by `padLength` zeros (one zero if the width is below 1) |
| Common.NextId | src/util/common.js:10-18 | a blank id leaves the counters alone and formats 0; otherwise the id's counter is bumped and its new value is formatted; defaults `''`, `''`, 8 |
| Common.Defined | src/util/common.js:23-32 | a key survives exactly when its value is not undefined, and it keeps its value |
| Common.DefinedIdempotent | src/util/common.js:23-32 | removing undefined keys twice is the same as once |
| Common.DelEmpObjValue | src/util/common.js:23-32 | an object loses exactly its undefined-valued keys in place, and the same object is returned; a non-object comes back unchanged; `null` throws |
| StockModel.NewStock | src/models/StockModel.js:18-25 | the defaults are `stockDesc` '' , `balQty` 0, not deleted; the record is valid iff the required strings are non-empty and `balQty >= 0` |
| StockController.FindOne | src/controllers/StockController.js:24-30 | `findOne` returns a stored record matching the `stockid` and, when given, the `deleted` filter; it returns nothing iff none matches |
| StockController.StockLedger.FindStockById | src/controllers/StockController.js:13-39 | a hit returns the cached record and leaves the cache alone; a miss excludes soft-deleted records unless `includeDelete`; only a found, non-`includeDelete` lookup adds a cache entry; every result is the projection of the stored record; cache coherence is kept |
| StockController.StockLedger.AdjStockBal | src/controllers/StockController.js:48-62 | a blank id, or no record, changes nothing and returns nothing; otherwise `balQty` becomes old + `adjQty` and `modifiedBy` becomes `usrid`, whether or not the record is deleted; no other record changes; the cache entry becomes the returned record |
| StockController.StockLedger.AddNewItem | src/controllers/StockController.js:69-99 | a blank or missing stock id gives 400 and stores nothing; a save rejected by the validators or by the unique index gives 500 and stores nothing; otherwise 200, the record stored has `balQty` = qty (default 0), `createdBy` = `modifiedBy` = current user; the cache is untouched |
| StockScenarios.DeletedLookupKeepsCacheClean | src/controllers/StockController.js:26-35 | after a deleted-inclusive lookup of a soft-deleted item, a normal lookup still finds nothing; the cache is unchanged and the store is not touched |
| StockScenarios.AdjustedDeletedStockIsServed | src/controllers/StockController.js:48-59 | after adjusting a soft-deleted item, a normal lookup returns it with the adjusted balance |
| UserModel.ParseLevel | src/models/UserModel.js:23-36 | a role string is accepted only when it is "USER" or "ADMIN", and then names that level |
| UserModel.RoleOf | src/util/auth.js:44 | `roles[module]`: a module other than job, stock or user has no role |
| UserModel.NewUser | src/models/UserModel.js:19-41 | a new user is not deleted; it is valid iff `userid`, `name`, `shortname`, `cert`, `createdBy` and `modifiedBy` are all non-empty |
| UserController.First | src/controllers/UserController.js:17 | the result is the first user the filter selects, or nothing iff none is selected |
| UserController.Find | src/controllers/UserController.js:38 | the search loop returns `First` |
| UserController.SharedCacheHit | src/controllers/UserController.js:8-52 | a cached user is the first cached match for its own `userid` |
| UserController.LookupResult | src/controllers/UserController.js:16-27 | a lookup yields a user whose field matches the key, and yields none iff neither the cache nor the non-deleted stored users hold a match |
| UserController.CacheAfterLookup | src/controllers/UserController.js:25-27 | a lookup only ever extends the cache |
| UserController.UserDirectory.Lookup | src/controllers/UserController.js:12-52 | a cache hit returns the first cached match and leaves the cache alone; a miss returns the first non-deleted stored match and appends it; the cache only grows |
| UserController.UserDirectory.FindUserByCert | src/controllers/UserController.js:12-31 | `Lookup` keyed on `cert`: the returned user has that cert, is not deleted and is now cached |
| UserController.UserDirectory.FindUserById | src/controllers/UserController.js:33-52 | `Lookup` keyed on `userid`, with the same rules |
| UserController.CertThenId | src/controllers/UserController.js:8-52 | the certificate lookup yields `LookupResult` and leaves the cache as `CacheAfterLookup`; a user it finds is then returned by the id lookup as the first cached match in that cache. The id lookup leaves the cache unchanged, so storage is not consulted. A failed certificate lookup makes no id lookup and leaves the cache as the certificate lookup left it. The store is not modified |
| Auth.CertOf | src/util/auth.js:10 | a missing header reads as the empty string |
| Auth.Authenticate | src/util/auth.js:9-20 | the user is the one the certificate lookup yields: the first cached user with that cert, else the first non-deleted stored one. With none, the reply is 401 "Fail to authenticate user" and `next` is not called. Otherwise `next` is called once with `locals.user` set to that user and `isAuthenticated` true. The cache becomes what the lookup leaves. A missing header always gives 401 |
| Auth.IsAdmin | src/util/auth.js:41-48 | `isAdmin` holds iff there is a user whose role for job, stock or user is ADMIN; a USER role, no roles, or an unknown or empty module gives false |
| Auth.RequireAdmin | src/util/auth.js:25-36 | `requireAdmin` proceeds iff `isAuthenticated` and `isAdmin`, passing the locals on unchanged; otherwise it replies 403 with the user's short name (empty without a user) |
| Auth.AnonymousIsRefused | src/util/auth.js:27-34 | without `auth` having run, every module is refused with 403 |
| Auth.AuthThenRequireAdmin | src/util/auth.js:9-36 | behind `auth`: 401 exactly when the certificate lookup yields no user; the request proceeds, with that user authenticated, exactly when the user is ADMIN for the module; a found non-admin gets 403 |
| JobModel.Upper | src/models/JobModel.js:33-37 | upper-casing keeps the length and leaves no lower-case letter |
| JobModel.UpperIsUpper | src/models/JobModel.js:33-37 | upper-casing is idempotent and leaves already upper-case text unchanged |
| JobModel.ParsePriority | src/models/JobModel.js:47-53 | only LOW, MEDIUM and HIGH are accepted, and each names its priority |
| JobModel.ParseStatus | src/models/JobModel.js:54-60 | only NEW, ASSIGNED, FIXING, DONE and REWORK are accepted, and each names its status |
| JobModel.StatusCaseInsensitive | src/models/JobModel.js:54-60 | a status string is accepted as status `t` exactly when it spells `t`'s name in any mixture of cases |
| JobModel.Violations | src/models/JobModel.js:31-70 | no path fails iff the required fields are present and non-empty and the supplied enums are recognised |
| JobModel.NewJob | src/models/JobModel.js:31-70 | building fails, with the failing paths, iff some validator fails. A built job is valid: required strings non-empty and the marked fields upper case. `jobid` is stored as given. `client`, `brand`, `model`, `createdBy`, `modifiedBy` and a supplied `imei`, `jobno` or `assignee` are stored upper-cased. Supplied flags, parts and problems are carried over |
| JobModel.NewJobDefaults | src/models/JobModel.js:47-65 | defaults: status NEW, priority MEDIUM, `billed`, `credited` and `cancelled` false, `approved` null, `imei` and `jobno` ''; a supplied enum is stored as its upper-cased name |
| PRController.OpenRecords | src/controllers/PRController.js:58-59 | no listed record carries `closed` |
| PRController.OpenRecordsExact | src/controllers/PRController.js:58-59 | a record is listed iff it is the projection of a stored record with `closed == false` |
| PRController.Insert | src/controllers/PRController.js:60 | inserting into a newest-first list keeps it newest-first and adds exactly the element |
| PRController.SortDesc | src/controllers/PRController.js:60 | the sort is a permutation ordered by `modifiedAt` descending, with a missing value last |
| PRController.GetAll | src/controllers/PRController.js:56-60 | `getAll` returns exactly the open records, projected, as a permutation of the filter's result, newest `modifiedAt` first |
| PRController.NewRequestNotListed | src/controllers/PRController.js:39-59 | storing a record built by `addNewRequest` does not change what `getAll` returns |
| PRController.PartRequestRegistry.AddNewRequest | src/controllers/PRController.js:27-54 | a blank `usrid` or `jobid` stores nothing and returns nothing; otherwise the record `PRQ-<suffix>` is appended and returned, copying `jobid`, `partid`, `stockid` and `stockDesc`, with `reqQty` = qty and `createdBy` = `modifiedBy` = `usrid`, and with neither `closed` nor `modifiedAt` set (so `getAll` is unchanged and the record has no sort key); an empty part still makes a record |

## Left out

- Job lifecycle operations (adding and removing parts, status updates, approval, problem edits) are not part of this model. The only job handler, src/controllers/JobController.js, is a test stub that echoes a constant.
- Routes, the Express application, the database connection and logging are not part of this model. They are HTTP wiring, process bootstrap and file or console I/O.
- The schemas with no fields are not modelled: PartRequest, StockAudit, PurchaseOrder, Customer, Supplier and Invoice. Because of this, the record is modelled as `addNewRequest` builds it. With an empty schema in strict mode, Mongoose would drop its fields when saving.
- src/util/requestValidator.js is not part of this model. Its result depends on a pending Promise, and it duplicates `auth`.
- The empty handlers of UserController (`getAll`, `getOne`, `createUser`, `updateProfile`, `updateUser`, `deleteUser`) have no behaviour to model. `getProfile` is response shaping.
- Concurrency is out of scope. Operations are modelled one at a time, so the shared caches are never raced and the atomicity of `$inc` and `findOneAndUpdate` is not modelled.
- Storage failures and rejected promises are out of scope: the 500 replies of `getAll`, an exception thrown by `next` or `findOneAndUpdate`.
- `shortid.generate()` is a random source. Its output is the `suffix` parameter of `AddNewRequest`.
- Timestamps are not modelled: `createdAt`, `updatedAt`, `dateIn`, `dateOut`. `modifiedAt` is a plain optional integer. No code shown writes `modifiedAt`: the `timestamps` option writes `createdAt` and `updatedAt`. So records built by `addNewRequest` have no sort key for `getAll`, and `SortDesc` places them last.
- The order `getAll` gives to records with equal `modifiedAt` is not modelled. MongoDB does not fix it.
- `toUpperCase` is modelled on ASCII letters only. Unicode case mapping, which can change a string's length, is not modelled.
- Quantities are JavaScript Numbers in the source and integers in the model: `balQty`, `qty`, `adjQty` and `reqQty`. Fractional quantities, `NaN` and floating-point rounding are not modelled.
- `${n}` is modelled as plain decimal digits for non-negative integers. Exponent notation above 10^21 and floating-point counters are not modelled.
- Inputs of the wrong JavaScript type are not modelled: a `null` part, a non-string id, a non-boolean `includeDelete`. The one exception is `null` in `delEmpObjValue`.
- `_id` and `__v` are not modelled. The projections only drop the modelled fields: `deleted` for stock, `closed` for part requests.
- StockController.StockLedger.AdjStockBal: does not claim that `balQty` stays at or above 0. The update passes no `runValidators`, so the schema's `min: 0` is not enforced there.
