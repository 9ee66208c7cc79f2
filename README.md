# Central license platform: the validation core in Dafny

This project models the core of a PHP license server and the client library that
products embed. The server issues license keys to customers under plans of products.
It validates a key for a product and a domain through a first-match-wins chain:
rate limit, missing parameters, lookup of an active license, product match, expiry,
domain binding under the plan's cap, and success. On success it returns a response
signed with HMAC-SHA-256. The client caches a valid answer for seven days and falls
back to the cache when the server cannot be reached.

Around that core the model also covers:

- the administrator's domain ledger;
- the daily expiry job;
- the cascading customer delete and the license delete;
- the product and plan handlers, with slug generation and feature-list parsing;
- the password policy;
- the browser-side formatter of key input fields.

Conventions of the model:

- The database is the class `Store.Database`. Each table with an AUTO_INCREMENT id
  is a map from id to row, and the validation log is a sequence.
- Time is an explicit integer `now` in seconds.
- HMAC is a function parameter `mac`.
- `random_int` is a stream of draws.
- `mail()` is an oracle `mailOk`.
- The HTTP answer the client receives is a parameter.
- A throwing SQL statement is an oracle `fault`.

When the cache is stale and the server cannot be used, the client returns the stale
cached answer marked as cached, with the offline warning. It fails only when there is no
cache file at all (api/license-client.php:92-101). `LicenseClient.OfflineFallback` states this.

Modules, one per source file, plus four shared ones: Option and Result, PHP's own behaviour, JSON, and the database tables:

| module | models |
|---|---|
| `Wrappers` | Option and Result |
| `Php` | `empty`, truthiness, `trim`, ASCII character classes, `strtolower`, `strlen` in UTF-8 bytes, `explode`/`implode` |
| `Json` | `json_encode`/`json_decode` of a string list and of the signed payload, with round trips |
| `Store` | the tables, their AUTO_INCREMENT counters and referential consistency |
| `Functions` | includes/functions.php |
| `LicenseGenerator` | includes/license_generator.php |
| `ValidateApi` | api/validate.php |
| `LicenseClient` | api/license-client.php |
| `ViewLicense` | the domain handlers of admin/view_license.php |
| `CheckExpiry` | cron/check_expiry.php |
| `DeleteCustomer` | admin/delete_customer.php |
| `DeleteLicense` | admin/delete_license.php |
| `Products` | admin/products.php |
| `Plans` | admin/plans.php |
| `Auth` | includes/auth.php |
| `KeyInput` | the key formatter of assets/js/main.js |

## Model

| member | source | states |
|---|---|---|
| Php.TrimIdempotent | admin/plans.php:42 | `trim` applied twice equals `trim` applied once |
| Php.TrimmedEnds | admin/view_license.php:80 | a trimmed string neither starts nor ends with one of the six characters `trim` strips |
| Php.ImplodeExplode | admin/plans.php:42 | joining the pieces of `explode(',', s)` with ',' gives `s` back, and no piece contains the separator |
| Json.DecodeEncodedList | includes/license_generator.php:127 | `json_decode` of the `json_encode` of a string list gives the list back |
| Json.DecodeEncodedPayload | includes/functions.php:281 | decoding the JSON text of the signed four-field payload gives the payload back |
| Json.EncodePayloadInjective | includes/functions.php:281 | two payloads with the same JSON text are equal |
| Json.ParseIntToString | includes/functions.php:281 | the decimal text of any integer parses back to that integer |
| Store.InsertBindingCount | api/validate.php:119-120 | inserting a binding under a fresh id raises its license's count by exactly one and leaves every other license's count unchanged |
| Store.RemoveBindingCount | admin/view_license.php:70-71 | removing a binding lowers its license's count by one and leaves every other count unchanged |
| Store.LogsWithoutKeepsOthers | admin/delete_customer.php:111-115 | deleting the log entries of a set of licenses leaves the ordered history of every other license unchanged |
| Store.Database.InsertPlan | admin/plans.php:65-78 | the new row takes the next AUTO_INCREMENT id, which no row had before, and the other tables stay unchanged |
| Store.Database.InsertProduct | admin/products.php:66-72 | the new row takes the next AUTO_INCREMENT id, which no row had before, and the other tables stay unchanged |
| Functions.ValidateCsrfToken | includes/functions.php:113-119 | a token is accepted exactly when the session token is present and equals it and it is not empty (which includes "0") |
| Functions.StatusColor | includes/functions.php:137-144 | active, inactive and expired map to `success`, `warning` and `danger`; `secondary` is returned exactly for any other status |
| Functions.StatusLabel | includes/functions.php:152-159 | active, inactive and expired are shown as "Aktiv", "Inaktiv" and "Abgelaufen"; the label equals the input exactly when the status is any other |
| Functions.QueryCache.GetCache | includes/functions.php:168-181 | data is returned exactly when an entry exists and is younger than `ttl` |
| Functions.QueryCache.SetCache | includes/functions.php:190-198 | the entry is overwritten with the current time |
| Functions.QueryCache.ClearCache | includes/functions.php:206-230 | one entry is removed, or all entries when no key is given |
| Functions.FreshUntilTtl | includes/functions.php:168-199 | after `set_cache` of a key, `get_cache` of that key returns the written data exactly until `ttl` seconds after the write, and None afterwards, whatever was cached before |
| Functions.Retained | includes/functions.php:253-255 | the filter keeps exactly the timestamps inside the window |
| Functions.RateLimiter.CheckRateLimit | includes/functions.php:240-271 | the call is admitted exactly when the address has no state or the retained timestamps plus this call are within the limit; an admitted call stores the retained timestamps followed by `now`; a rejected call stores nothing |
| Functions.RecordedInsideWindow | includes/functions.php:253-258 | after an admitted call the stored list ends with `now`, and every earlier entry lies inside the window |
| Functions.BurstRejected | includes/functions.php:261-262 | once `limit` requests inside the window are stored, a further call is refused and the state is unchanged |
| Functions.AdmittedAfterWindow | includes/functions.php:253-266 | once every stored request has left the window, a call is admitted again |
| Functions.RunInsideWindow | includes/functions.php:248-270 | within one window, with `c` requests already stored, the k-th call is admitted exactly when k + c < limit |
| Functions.FirstLimitCallsAdmitted | includes/functions.php:264-266 | from an address with no state, the first `limit` calls in one window are admitted and every later call in that window is refused |
| Functions.VerifySigned | includes/functions.php:280-295 | a signature always verifies against the data it was made from |
| Functions.AlteredPayloadRejected | includes/functions.php:292-295 | under a collision-free MAC, a signature does not verify for any payload other than the one signed |
| Functions.Pagination | includes/functions.php:322-352 | there are no items for one page or fewer; otherwise the back arrow, pages max(1, cur-2) to min(total, cur+2) with the current one active, and the forward arrow, each arrow disabled at its end |
| LicenseGenerator.AlphabetKeyChars | includes/license_generator.php:14 | symbol d of the alphabet is the d-th letter A-Z, then the digit d - 26; every symbol is A-Z or 0-9, and distinct draws pick distinct symbols |
| LicenseGenerator.SegmentLengthBound | includes/license_generator.php:17-19 | the inner loop's test `$i < $length / $segments` on floats holds exactly while i * segments < length |
| LicenseGenerator.KeyGrouped | includes/license_generator.php:13-30 | every key is `s` runs of `n` key characters joined by single hyphens, and has s*n + s - 1 characters |
| LicenseGenerator.GroupedKeyEnds | includes/license_generator.php:24-26 | a grouped key neither starts nor ends with a hyphen |
| LicenseGenerator.KeyLengthDivisible | includes/license_generator.php:13-30 | for a length divisible by the segment count the key has length + segments - 1 characters (19 for the defaults) |
| LicenseGenerator.KeyLengthRoundsUp | includes/license_generator.php:17-21 | with any positive length each segment is rounded up, so the key holds at least `length` key characters |
| LicenseGenerator.AppendSegment | includes/license_generator.php:19-21 | the inner loop appends exactly one segment of draws |
| LicenseGenerator.GenerateLicenseKey | includes/license_generator.php:13-30 | zero segments raise the division-by-zero error; negative segments give ""; otherwise the key of the grouped format |
| LicenseGenerator.GenerateUniqueLicenseKey | includes/license_generator.php:37-51 | a returned key is not among the stored keys and is in the XXXX-XXXX-XXXX-XXXX format; every earlier attempt was a stored key |
| LicenseGenerator.EndDate | includes/license_generator.php:82-85 | a given end date is kept; otherwise there is an end exactly when the plan exists with a positive duration, and it is start + duration * 86400 |
| LicenseGenerator.CreateLicense | includes/license_generator.php:64-108 | exactly one row is inserted under the next id: a supplied key is used unchanged, a missing key is fresh and grouped; the start date defaults to now; the end date follows the plan |
| LicenseGenerator.FeaturesOfStored | includes/license_generator.php:127 | a feature list stored as its JSON text is read back unchanged, and NULL reads as [] |
| LicenseGenerator.GenerateLicenseResponse | includes/license_generator.php:118-141 | an invalid response is exactly {valid:false, message}; a valid one carries the key, end date and features, and a signature that verifies over those fields |
| LicenseGenerator.ResponseBindsLicense | includes/license_generator.php:130-138 | under a collision-free MAC, the response's signature verifies for a claimed payload exactly when it is the license's own |
| ValidateApi.Reply | api/validate.php:21-134 | there is an empty body exactly for OPTIONS; a valid body exactly for success; status 200 exactly for OPTIONS and for the steps past the parameter check |
| ValidateApi.Validator.LogFor | api/validate.php:80-131 | the log row is valid exactly on success; a not-found row has license id 0; other rows carry the license's id |
| ValidateApi.Validator.Validate | api/validate.php:21-133 | OPTIONS, non-POST and whitelist refusals change nothing; the rate limiter sees every other request; a rate-limited request or one missing a parameter leaves the store unchanged; every later step appends exactly one log row and changes the store as its branch says |
| ValidateApi.Validator.Check | api/validate.php:61-133 | with no active license for the key, the outcome is not-found with a license-id-0 row; otherwise the outcome is that of the license the query returned |
| ValidateApi.Validator.CheckLicense | api/validate.php:85-128 | a slug mismatch changes nothing; a past end date marks the license expired; an unbound domain at the cap is refused with no binding; success binds a new domain once and raises the count by one |
| ValidateApi.Validator.Accept | api/validate.php:118-133 | on an accepted request the domain ends up bound, the license's validation count rises by one with the current time as its last validation, no log row is written yet, and the outcome is the signed response for that license |
| ValidateApi.Validator.BindDomain | api/validate.php:118-120 | one binding is inserted under the next id; only that license's count moves, by one |
| ValidateApi.ValidatedResponseVerifies | api/validate.php:134 | the success response carries the license's key and end date and a signature that verifies |
| LicenseClient.ValidateStep | api/license-client.php:34-115 | a fresh cache is returned without asking the server; the call fails exactly when the server cannot be used and there is no cache; the cache afterwards is the old one or this call's valid answer |
| LicenseClient.Client.CheckCache | api/license-client.php:49-56 | the cache counts as fresh exactly when a file exists and is younger than 604800 seconds |
| LicenseClient.Client.ValidateOnline | api/license-client.php:73-115 | without an answer the cache is returned marked cached with the offline warning, or the call fails when there is no cache; a valid answer replaces the cache, and any other answer deletes it |
| LicenseClient.Client.Validate | api/license-client.php:34-42 | the result, the new cache and whether the server was asked are those of `ValidateStep` |
| LicenseClient.Client.HasFeature | api/license-client.php:123-130 | the feature test over `validate()`'s result |
| LicenseClient.Client.IsValid | api/license-client.php:149-152 | the strict validity test over `validate()`'s result |
| LicenseClient.Client.GetExpiryDate | api/license-client.php:160-167 | the expiry query over `validate()`'s result |
| LicenseClient.Client.IsExpired | api/license-client.php:174-185 | the expiry test over `validate()`'s result |
| LicenseClient.Client.ClearCache | api/license-client.php:137-142 | the cache is gone afterwards and the call reports success |
| LicenseClient.InvalidAnswerGrantsNothing | api/license-client.php:123-185 | an answer whose `valid` is unset or falsy grants no feature, is not valid, has no expiry date and counts as expired at every time |
| LicenseClient.StrictlyValid | api/license-client.php:149-152 | an answer is valid exactly when `valid` is the boolean true |
| LicenseClient.ExpiredStaysExpired | api/license-client.php:174-185 | an answer that counts as expired at some time still counts as expired at every later time |
| LicenseClient.LooseAndStrictValidity | api/license-client.php:123-152 | for `valid` = 1 a feature is granted while `isValid` says false |
| LicenseClient.ExpiryQueriesAgree | api/license-client.php:160-185 | for a valid answer, `isExpired` holds exactly when the expiry date exists and has passed |
| LicenseClient.ValidAnswerServedFromCache | api/license-client.php:34-108 | after a valid online answer, every call within seven days is answered from the cache with that answer and without asking the server |
| LicenseClient.InvalidAnswerForcesOnline | api/license-client.php:109-111 | after an invalid answer there is no cache, so the next call asks the server and fails if the server cannot be reached |
| LicenseClient.OfflineFallback | api/license-client.php:92-99 | when the server cannot be used, a cache of any age is returned unchanged but marked cached with the warning, and it is kept |
| LicenseClient.ServerOutcomeSeenByClient | api/license-client.php:73-115 | end to end: a stale client sees valid exactly on server success, then caches the answer and sees the plan's features and end date; any other logged outcome leaves it invalid, expired and without a cache |
| LicenseClient.ErrorStatusServesStaleCache | api/license-client.php:90-99 | a rate-limit, missing-parameter, forbidden or wrong-method reply serves a stale cache as if the server were offline |
| ViewLicense.HandleDomainAction | admin/view_license.php:61-106 | a missing license changes nothing; a request without an action renders the page without the token check; a bad token changes nothing; removal deletes only a row of this license; adding checks for empty input, then the cap, then duplicates, then inserts exactly one binding |
| ViewLicense.RemoveDomainRow | admin/view_license.php:68-76 | only the row with both this id and this license goes, and no other license's count moves |
| ViewLicense.AddDomainRow | admin/view_license.php:79-105 | an empty trimmed domain changes nothing; the cap check comes before the duplicate check; an insert adds one binding and keeps the count within `max_domains` |
| ViewLicense.AddKeepsCap | admin/view_license.php:84-99 | a license under its cap stays within it after one manual binding |
| CheckExpiry.Swept | cron/check_expiry.php:40-47 | the sweep keeps every license id |
| CheckExpiry.SweepEffect | cron/check_expiry.php:40-47 | exactly the active licenses with a past end date become expired, nothing else changes, and none remains to expire |
| CheckExpiry.SweepIdempotent | cron/check_expiry.php:40-47 | a second sweep changes nothing and touches no row |
| CheckExpiry.MarkNotifiedMonotone | cron/check_expiry.php:85-88 | the flag is only ever set: it is set exactly for a due license whose mail was accepted, and no other field changes |
| CheckExpiry.NotifyStep | cron/check_expiry.php:85-88 | one loop pass adds the license to the notified set and raises the count exactly when its mail went out |
| CheckExpiry.MailEach | cron/check_expiry.php:67-93 | in any visiting order, the loop sets the flags of the due licenses whose mail went out, and the count is their number |
| CheckExpiry.ExpireOverdue | cron/check_expiry.php:40-48 | the licenses become the swept ones and `updated_count` is the number of rows touched |
| CheckExpiry.NotifyExpiring | cron/check_expiry.php:53-93 | only due licenses (active, not notified, ending in [now, now + 7 days], with customer, plan and product) are mailed; the flags and the count follow the accepted mails |
| CheckExpiry.CheckExpiry | cron/check_expiry.php:40-93 | the sweep, then the reminders over the swept table; other tables stay unchanged and consistency is kept |
| CheckExpiry.SameLinksConsistent | cron/check_expiry.php:40-93 | changing only statuses and flags keeps referential consistency |
| DeleteCustomer.CascadeRemovesCustomer | admin/delete_customer.php:103-121 | afterwards no customer row, no license of the customer, and no binding or log entry of its licenses remain |
| DeleteCustomer.CascadeKeepsOthers | admin/delete_customer.php:104-121 | another customer's row, licenses, bindings and ordered log history are untouched |
| DeleteCustomer.CascadeConsistent | admin/delete_customer.php:103-121 | the cascade keeps the tables referentially consistent |
| DeleteCustomer.Statements | admin/delete_customer.php:103-121 | the DELETEs run in order up to the one that throws; all four complete exactly when none throws, and the result is the cascade |
| DeleteCustomer.Transaction | admin/delete_customer.php:99-133 | the transaction commits exactly when nothing throws; a rollback leaves all four tables as they were |
| DeleteCustomer.DeleteCustomer | admin/delete_customer.php:23-141 | without a valid token nothing is deleted; without confirmation nothing is deleted; otherwise the cascade is committed or everything is rolled back |
| DeleteLicense.DeleteLicense | admin/delete_license.php:24-119 | as written: without a valid token or confirmation nothing changes; otherwise only the license row is deleted |
| DeleteLicense.DeleteLicenseOrphans | admin/delete_license.php:96 | deleting only the license row breaks consistency whenever the license had a binding or a log entry |
| DeleteLicense.CascadeLicense | admin/delete_license.php:96 | the intended delete leaves no binding and no log entry of the license, and removes its row |
| DeleteLicense.CascadeLicenseConsistent | admin/delete_license.php:96 | the intended delete keeps the tables consistent and leaves other licenses' bindings and logs untouched |
| DeleteLicense.DeleteLicenseCascading | admin/delete_license.php:24-119 | the page with the intended delete: the same gate, then the cascade, which keeps consistency |
| Products.Collapse | admin/products.php:44 | runs of hyphens become one: there is no "--" in the result, and the first character and the slug characters are kept |
| Products.TrimHyphensLeft | admin/products.php:45 | the result is a suffix of the input that does not start with '-' |
| Products.TrimHyphensRight | admin/products.php:45 | the result is a prefix of the input that does not end with '-' |
| Products.SlugWellFormed | admin/products.php:43-45 | a generated slug has only a-z, 0-9 and '-', no "--", and no '-' at either end |
| Products.SlugifyKeepsWellFormed | admin/products.php:43-45 | a well-formed slug passes through the pipeline unchanged |
| Products.SlugifyIdempotent | admin/products.php:43-45 | slug generation is idempotent on its own output |
| Products.ChosenSlug | admin/products.php:37-46 | the slug is generated from the name exactly when the given slug is empty and the name is not, and a generated slug is always well formed; otherwise the trimmed given slug is used |
| Products.GeneratedSlugKept | admin/products.php:37-46 | submitting the slug generated from a name, together with that name, keeps exactly that slug |
| Products.CreateErrors | admin/products.php:48-62 | there are no errors exactly when the name and the slug are non-empty and the slug is not taken |
| Products.CreateKeepsSlugsUnique | admin/products.php:53-72 | an insert whose slug is not taken keeps slugs unique |
| Products.UpdateKeepsSlugsUnique | admin/products.php:108-116 | an update that keeps the slug keeps slugs unique |
| Products.CreateProduct | admin/products.php:36-94 | the errors are those of the checks; without errors exactly one product row is inserted, and slug uniqueness is preserved |
| Products.UpdateProduct | admin/products.php:97-131 | an empty name is refused; otherwise only the name and description of an existing row change |
| Products.DeleteProductConsistent | admin/products.php:146-155 | deleting an unused product and its plans leaves no license without its plan |
| Products.DeleteProduct | admin/products.php:134-170 | deletion is refused exactly when a license uses a plan of the product; otherwise its plans and then the product go |
| Products.HandleProductPost | admin/products.php:28-172 | a bad token changes nothing; otherwise the errors are those of the action's checks; a successful create inserts the trimmed row with the chosen slug under the next id; a successful update changes only name and description; a successful delete removes the product and its plans; slug uniqueness and consistency are preserved |
| Plans.TrimAll | admin/plans.php:42 | the count is kept and every entry is already trimmed, so trimming again changes nothing |
| Plans.KeepNonEmpty | admin/plans.php:43 | exactly the non-empty entries are kept |
| Plans.ParseFeatures | admin/plans.php:40-44 | every result entry is non-empty and trimmed, and exactly the non-empty trimmed pieces of the input appear |
| Plans.StoredFeaturesRoundTrip | admin/plans.php:77 | the stored column reads back as exactly the parsed list, with NULL for none |
| Plans.FilterKeepingKeysValues | admin/plans.php:43 | `array_filter` keeps the same values as the parser, only with their original keys |
| Plans.AsWrittenWithoutGaps | admin/plans.php:40-77 | as written, the stored text is the JSON list whenever no empty entry precedes a kept one |
| Plans.GapStoredAsObject | admin/plans.php:40-77 | as written, ",a" (a leading comma) is stored as {"1":"a"}; the corrected form is ["a"] |
| Plans.CreateErrors | admin/plans.php:47-61 | each error appears exactly when its check fails: empty name, product id <= 0, max_domains <= 0, negative price |
| Plans.UpdateErrors | admin/plans.php:115-125 | the same checks without the product |
| Plans.AcceptedPlanSane | admin/plans.php:47-78 | an accepted plan allows at least one domain, has no negative price and a non-empty name; its features column is NULL exactly when no feature was entered, and reads back as the parsed list when no empty entry precedes a kept one |
| Plans.AsWrittenNullExactlyWhenNone | admin/plans.php:40-77 | as written, the features column is NULL exactly when the input holds no non-empty feature name |
| Plans.CreatePlanRow | admin/plans.php:31-96 | the errors are those of the checks; without errors exactly one plan row is inserted under the next id, with the features column as line 77 writes it |
| Plans.UpdatePlanRow | admin/plans.php:99-158 | the errors are those of the checks; without errors an existing row gets the new fields, with the features column as line 141 writes it, and keeps its product |
| Plans.DeletePlanConsistent | admin/plans.php:161-174 | removing a plan no license uses keeps consistency |
| Plans.DeletePlanRow | admin/plans.php:161-189 | deletion is refused exactly when a license uses the plan |
| Plans.HandlePlanPost | admin/plans.php:22-191 | a bad token changes nothing; otherwise the errors are those of the action's checks; a successful create inserts the new row under the next id, a successful update rewrites the existing row, and a successful delete removes it; consistency is preserved |
| Auth.IsLoggedIn | includes/auth.php:11-13 | logged in exactly when `user_id` is set and truthy, so not for 0, "0" or "" |
| Auth.ValidatePassword | includes/auth.php:148-168 | no errors exactly when the password has at least 8 bytes, an upper-case letter, a lower-case letter and a digit; each error appears exactly when its check fails; at most four errors, in the order length, upper, lower, digit |
| Auth.AsciiLength | includes/auth.php:151 | for ASCII text the byte length is the character count |
| KeyInput.FormatKeyInput | assets/js/main.js:77-89 | the loop builds exactly the hyphenated form of the cleaned value |
| KeyInput.FormatChars | assets/js/main.js:77-88 | the output holds only A-Z, 0-9 and '-' |
| KeyInput.StripFormat | assets/js/main.js:77-88 | removing the hyphens from the output gives the upper-cased input without any character outside A-Z0-9 |
| KeyInput.FormatIdempotent | assets/js/main.js:77-88 | formatting formatted output changes nothing |
| KeyInput.HyphenatedBlock | assets/js/main.js:82-86 | each block of four characters after a multiple of four is preceded by a hyphen, except the first block |
| KeyInput.SixteenGrouped | assets/js/main.js:82-86 | sixteen key characters are shown as XXXX-XXXX-XXXX-XXXX, in the generator's grouped format |
| KeyInput.FiveUngrouped | assets/js/main.js:83 | five characters get no hyphen: the hyphen before index 4 appears only once a sixth character follows |
| KeyInput.GeneratedKeyUnchanged | assets/js/main.js:77-89 | a key generated with the default settings is left unchanged by the formatter |

## Left out

- HTML rendering, modals, the header and the remaining UI scripts of assets/js/main.js: presentation only.
- Database connection, installer, configuration constants, login, logout and the profile page: environment glue.
- Listing and dashboard pages, the license and customer form pages, and cron/cleanup_logs.php: SQL plus forms.
- Real cryptography: `hash_hmac` is the parameter `mac`, and the constant-time behaviour of `hash_equals` is not expressible.
- `random_int`: it is the draw stream `draws`.
- Dates: timestamps are integers. `strtotime`, `date` and `NOW()` are not modelled, and daylight-saving shifts in the seven-day window are ignored.
- Concurrency: each request runs alone. The check-then-insert of domain binding, the rate limiter's read-modify-write and the key uniqueness check are atomic in the model.
- File-system details of both caches (`mkdir`, `md5` file names, `serialize`, `filemtime`): a cache is a map of entries, or an optional file with its write time.
- Functions.QueryCache.SetCache: always reports success, because a failing `file_put_contents` is not modelled.
- Functions.QueryCache.ClearCache: `unlink` is taken to succeed, so the call always reports success.
- LicenseClient.Client.ClearCache: `unlink` is taken to succeed.
- LicenseClient.Client.GetExpiryDate: returns the timestamp, not the formatted date string.
- `in_array` is exact string membership, both in the IP whitelist and in `hasFeature`. PHP's loose comparison of non-string values is not modelled.
- The `API_IP_WHITELIST` entries are not trimmed, as in the source.
- ValidateApi.Validator.Validate: the request body is already decoded into three strings, with absent fields as "". Non-string JSON values are not modelled.
- ValidateApi.Validator.Check: when several active licenses share a key, the one `fetch()` returns is an arbitrary choice.
- The `User-Agent` header: it is a parameter.
- LicenseGenerator.GenerateUniqueLicenseKey: the PHP retry loop is unbounded. The model bounds it by `fuel` and returns None when the fuel runs out.
- LicenseGenerator.CreateLicense: inherits that None. The INSERT is taken to succeed, so the `return false` path is not modelled, and `lastInsertId` is the table's counter.
- LicenseGenerator.FeaturesOf: reads only a JSON list of strings. Any other text, including the object form described under Findings, reads as []. End to end this differs from the source for a plan whose features were entered with a gap, such as ",a": the source stores `{"1":"a"}`, `generate_license_response` (includes/license_generator.php:127) decodes it to an array with key 1 and sends `{"1":"a"}`, and the client's `in_array` (api/license-client.php:129) still grants "a". In the model, LicenseGenerator.GenerateLicenseResponse sends an empty feature list for such a plan, and LicenseClient.ServerOutcomeSeenByClient's "sees the plan's features" is that empty list, so the client grants nothing.
- Json.EscapeChar: writes non-ASCII characters and control characters without a short escape as they are. `json_encode` writes them as `\uXXXX`.
- Json.EncodeExpiry: `expires_at` is the end date's decimal timestamp, not the MySQL datetime text.
- Plan prices: integer cents. `floatval(str_replace(',', '.', ...))` is not modelled.
- PDO exceptions: the connection throws on every failing statement (includes/db.php:13), and only admin/delete_customer.php catches them in a transaction. DeleteLicense.DeleteLicense and DeleteLicense.DeleteLicenseCascading model a failing DELETE through the oracle `fault`. Everywhere else the model takes each statement to succeed, so it does not capture a request aborted part-way. Examples: the validation log INSERT failing after a domain was bound or the counter raised (api/validate.php:118-131); the INSERT of admin/view_license.php:61-105; the notified-flag UPDATE failing after a reminder mail went out (cron/check_expiry.php:85-87); creates, updates and deletes of products and plans; and the second delete of a product failing after its plans were deleted (that page has no transaction).
- The "Duplicate entry" message of a concurrent slug insert: not modelled.
- Slug comparison: exact string equality stands in for the database collation.
- ValidateApi.Validator.Check, ValidateApi.Validator.CheckLicense, ViewLicense.AddDomainRow: the license-key lookup (api/validate.php:67), the bound-domain test (api/validate.php:102) and the duplicate-domain test (admin/view_license.php:89) are exact string equality. The connection uses utf8mb4 (includes/db.php:12) and no schema is shipped. Under a case-insensitive collation the source would also match a key or a domain that differs only in letter case or trailing spaces, which the model reports as not found or as a new domain.
- `updated_at` columns and `clear_cache('dashboard_stats')` after writes: not modelled.
- The `DEBUG_MODE` `die` branches of the delete pages, and the missing-id redirect before the token check (admin/delete_customer.php:17-19, admin/delete_license.php:17-19): not modelled.
- `$_GET['confirm'] == 1` is the boolean `confirmed`.
- The access gate of cron/check_expiry.php (lines 9-29), its `log_message` output and the administrator's summary mail (lines 97-114): not modelled. Whether a reminder mail is accepted is the oracle `mailOk`.
- KeyInput.Upper: ASCII upper-casing only. JavaScript's `toUpperCase` is Unicode-aware: 'ß' becomes "SS", and 'ı' becomes "I", which the filter then keeps.
- Functions.Pagination: returns the list items abstractly. The HTML strings and the `sprintf` URL pattern are not modelled.

## Findings

| source | as written | input that shows it | evidently intended | confidence | as-written member | corrected member |
|---|---|---|---|---|---|---|
| admin/delete_license.php:96 | Only the license row is deleted. Its domain bindings and validation-log rows stay behind and point at a license that no longer exists. | A license with one bound domain, deleted with a valid token and `confirm=1`. | The license's bindings and log entries are removed with it, as admin/delete_customer.php:103-118 does for a customer's licenses. | low to medium, not executed: the repository ships no schema. Foreign keys with ON DELETE CASCADE would make this moot. Foreign keys without CASCADE would make the DELETE throw instead, so the page redirects with `error=delete_failed` and a license with a binding or a log row can never be deleted; nothing would be orphaned then, and the child-first deletes of admin/delete_customer.php:103-118 hint that such keys may exist | DeleteLicense.DeleteLicenseOrphans | DeleteLicense.CascadeLicenseConsistent |
| admin/plans.php:43-77 | `array_filter` keeps the original keys. When an empty entry comes before a kept one, `json_encode` writes a JSON object, not a list. | The features field ",a" is stored as `{"1":"a"}`; "a,,b" likewise becomes `{"0":"a","2":"b"}`. | The list `["a"]`, as for inputs without gaps. | medium, not executed: a consumer that expects a list of features receives an object | Plans.GapStoredAsObject | Plans.StoredFeaturesRoundTrip |

The plan handlers store the features column as admin/plans.php writes it (`Plans.StoredFeaturesAsWritten`). `Plans.StoredFeatures` is the corrected column, and `Plans.StoredFeaturesRoundTrip` proves that it reads back as the parsed list.
