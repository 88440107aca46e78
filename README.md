# House-system backend: access control, accounts, customers and listings

This project models the core of the house-system backend, a Go/gin service
over PostgreSQL and MinIO. The service keeps property listings, their photos
and rich-text pages, registered users and a customer book. The model covers:

- **Access control.** The `JWTAuth` middleware admits a request for one
  audience ("user" or "admin") and records the token's subject in the request
  context. `GetPhoneFromJWT` resolves that subject against the users table;
  the subject "admin" is a sentinel that never touches the table.
  `CheckUser` and `CheckAdmin` are the guards the handlers call.
- **Tokens.** `GenerateJWT` builds the claim set. `InitJWTKey` scans the key
  file at startup.
- **Accounts.** Registration, login, user lookup, self update, administrator
  login (with its key-file scan) and removal of a user. The users table is a
  map keyed by phone.
- **Customers.** A `CustomerTable` class whose `rows` sequence the handlers
  append to, patch and filter. The class has create, masked and unmasked
  listing, update and delete.
- **Listings.** These parts are covered:
  - the ten validation rules of a new listing;
  - the faceted filter of `SelectProperties`, proved equal to a reference
    predicate `Selects`;
  - the photo insert protocol of `CreatePropertyImage`;
  - the one-time rich-text upload;
  - the list responses, with one cover photo per listing.

  These handlers sit on a `Catalog` class that holds the properties and
  property_images tables.
- **Object storage.** Object naming and URLs, the 3 MiB cap, and the
  extension-to-content-type table.

Each handler is modelled by the errno it answers and by the new state of the
tables it writes. Every collaborator that can fail is a parameter:

- each database call has a fault flag (`queryFails`, `insertFails`, ...);
- bcrypt's comparison is the function `verify(password, hash)`;
- a hash outcome is an `Option`;
- the JWT library's parse is `parse: string -> Parse`;
- MinIO's `PutObject` is `put: PutRequest -> bool`;
- upload time stamps are `stamp` and the clock is `now`.

A handler that panics is answered by gin's recovery middleware with HTTP 500
and no body. The model gives this outcome the errno `Access.RecoveredPanic`.
The code has two such panics:

- an `Authorization` header shorter than the seven characters the middleware
  drops;
- a price or size bucket index outside the tables in `SelectProperties`.

Where the code and its description differ, the model follows the code:

- Buckets are half-open ranges `[lo, hi)`, not closed ones.
- Photos are inserted one row at a time without a transaction. After a
  failure, the rows already inserted stay.
- No handler in the source replaces a photo set (see "Left out").
- Out-of-range filter values are not refused before the query. Bucket
  indices panic, and facet values are used as they are.
- A subject whose user row is missing gets 50005 from `CheckUser`, not 40100.
  gorm's `First` already fails with "record not found", so the "user not
  found" branch never runs.
- Registration's empty-username test (40002) never decides anything:
  `binding:"required"` refuses an empty username first, with 40000.
- `getListResponseByProperties` never uses the default cover. The image
  variable is never nil, so a listing without a main image fails the whole
  list with 50061.
- `CreatePropertyRichText` has two fall-throughs, which the model records as
  the sequence of bodies written:
  - after the zero-file success reply it goes on to `files[0]` and panics;
  - after refusing a non-HTML file (40044) it uploads the file anyway.

## Model

| member | source | states |
|---|---|---|
| Text.ByteLen | handler/user.go:41 | Go's `len` is the UTF-8 byte count: between the character count and four times it. It equals the character count exactly for ASCII text and is 0 only for "". |
| Text.TrimPrefix | utils/jwt/jwt.go:29 | strings.TrimPrefix: with the prefix, prefix + result is the input; without it, the input is unchanged. |
| Text.FirstWithPrefix | utils/jwt/jwt.go:26-32 | The index where a scan that breaks on the first match stops: that line has the prefix and no earlier one does. None means no line has it. |
| Decimal.Digits | handler/property.go:563-565 | Decimal text of a natural number: non-empty ASCII digits, a single digit exactly below 10. |
| Decimal.ValueOfDigits | handler/property.go:563-565 | Reading back the digits of n gives n. |
| Decimal.DigitsInjective | handler/property.go:563-565 | Two numbers have the same decimal text iff they are equal. |
| Decimal.FormatInt | handler/property.go:563-565 | `%d` and PostgreSQL's int-to-text cast: the digits, preceded by '-' for negatives. |
| Decimal.PadZero | handler/property.go:563-565 | `%0Nd`: exactly max(width, length of the text) characters; a number already that wide is printed unchanged. Otherwise the text is zeros followed by the digits, with a negative number's '-' ahead of the zeros. |
| Decimal.Quo | handler/property.go:563-565 | Go's quotient law: the remainder a - q*b lies in [0, b) for a >= 0 and in (-b, 0] for a < 0, so the quotient truncates toward zero. |
| Decimal.QuoOfNatural | handler/property.go:563-565 | For a dividend that is not negative, Go's quotient equals Dafny's `/`. |
| Decimal.QuoTruncatesTowardZero | handler/property.go:563-565 | Go's -1 / 2 is 0 where Dafny's Euclidean -1 / 2 is -1. |
| Decimal.SixDigitPrefixes | handler/property.go:563-565 | For a six-digit code d, the text of d/10000 is its first two characters and the text of d/100 its first four. |
| Decimal.PadTwoDigits | handler/property.go:563 | `%02d` leaves a two-digit number as it is. |
| Decimal.PadFourDigits | handler/property.go:565 | `%04d` leaves a four-digit number as it is. |
| ObjectStorage.GetFileURL | utils/OSS/OSS.go:14-20 | The URL is `https://` iff TLS is used, else `http://`, then endpoint/bucket/, then exactly the object name. |
| ObjectStorage.ObjectNameOfFileURL | utils/OSS/OSS.go:14-20 | The object name can be recovered from its URL: URL building is injective for a fixed configuration. |
| ObjectStorage.ObjectPath | utils/OSS/OSS.go:24-27 | With a category the stored name is category + "/" + name, otherwise the name alone. |
| ObjectStorage.UploadFileToOSS | utils/OSS/OSS.go:22-38 | Succeeds iff PutObject accepts (bucket, full name, size, content type). On success the URL names exactly that object; a failure returns only the error. |
| ObjectStorage.Ext | utils/OSS/OSS.go:50 | filepath.Ext: a suffix of the name that is "" or starts at the last '.' and has no further '.' or '/'. It is "" only when every '.' is followed by a '/'. |
| ObjectStorage.ExtOfDottedName | utils/OSS/OSS.go:50 | The extension of stem + "." + tail, for a tail without '.' or '/', is "." + tail. |
| ObjectStorage.ImageContentType | utils/OSS/OSS.go:50-68 | Exactly .jpg, .jpeg, .png, .gif, .webp, .bmp and .svg have a content type. Each is an image/ type; .jpg and .jpeg map to image/jpeg, .svg to image/svg+xml. |
| ObjectStorage.UpperCaseExtensionRefused | utils/OSS/OSS.go:50-68 | The table is case-sensitive: any name ending in ".JPG" is refused, while ".jpg" gives image/jpeg. |
| ObjectStorage.StampedNameIsElement | utils/OSS/OSS.go:77 | time stamp + "-" + file name is a single path element, so filepath.Join puts it directly under the category. |
| ObjectStorage.UploadImageToOSS | utils/OSS/OSS.go:40-80 | Size is checked before the extension. The upload succeeds iff the size is at most 3 MiB, the extension is in the table, the file opens and the store accepts images/<stamp>-<name> with the table's type. The URL names that object. |
| ObjectStorage.UploadHTMLToOSS | utils/OSS/OSS.go:82-100 | Only the size cap and opening are checked. The object is always html/<stamp>-<name> with type text/html, and the URL names it. |
| ObjectStorage.HtmlUploadIgnoresDeclaredType | utils/OSS/OSS.go:82-100 | The client's declared content type never changes the HTML upload's outcome. |
| ObjectStorage.SizeCapBoundary | utils/OSS/OSS.go:42-45 | Exactly 3 MiB passes the cap; one byte more is refused as too large. |
| Tokens.GenerateJWT | utils/jwt/jwt.go:49-70 | Claims expire exactly three days after their issue time, which is now. Audience, subject (the phone) and issuer are as given. |
| Tokens.GeneratedTokenLifetime | utils/jwt/jwt.go:49-70 | A token issued after the epoch is valid exactly from its issue time to three days later. |
| Tokens.TrimLeavesKeyLine | utils/jwt/jwt.go:28-29 | A line that starts with "JWTKEY=" does not start with "JWTKey=", so trimming leaves it whole. |
| Tokens.InitJWTKey | utils/jwt/jwt.go:17-43 | An unopenable file fails. Otherwise the key is the whole first line starting with "JWTKEY=" and the scan stops there. With no such line it fails with the read error if there was one, else with the empty key. A loaded key is never empty. |
| Tokens.IntendedJWTKey | utils/jwt/jwt.go:17-43 | Corrected loader: an unopenable file is refused. The result is Ok iff some line starts with "JWTKEY=" and the first such line holds more than the prefix; the key is then exactly the rest of that first line. With no such line: a read error, or else an empty key. |
| Tokens.KeyLineKeptWhole | utils/jwt/jwt.go:28-29 | For the one-line file "JWTKEY=" + v, the loader as written keeps the whole line, prefix included. The corrected loader yields v and refuses an empty v. |
| Access.JWTAuth | middleware/userMiddle.go:11-53 | An empty header gives 40050; a header shorter than seven characters panics. A parse failure or an expired or not-yet-valid token gives 50050; a valid token for another audience gives 40150. A request is admitted iff it passes all of these, and then only the context's "phone" is set, to the token's subject. |
| Access.SchemeIsNotChecked | middleware/userMiddle.go:24 | Any seven leading characters give the same outcome: "Bearer " is never checked. |
| Access.AudiencesAreDisjoint | middleware/userMiddle.go:40-48 | A header admitted for one audience is refused for the other with 40150. |
| Access.ExpiredTokenRefused | middleware/userMiddle.go:26-37 | A token whose expiry has passed is refused with 50050, whatever its audience. |
| Access.GetPhoneFromJWT | utils/jwt/get.go:10-28 | The "admin" subject resolves to itself with no user, without the store. Any other subject resolves iff the lookup succeeds and the phone is stored, to that row and its phone. The "user not found" error never arises. |
| Access.CheckUser | handler/user.go:186-206 | Passes iff resolution succeeded, so the administrator passes too. Otherwise 40100 for "user not found" and 50005 for every other error. |
| Access.CheckAdmin | handler/admin.go:106-132 | Passes iff the resolved subject is "admin". Every other outcome, a failed resolution included, gets 40012. |
| Access.AdminPassesBothGuards | handler/user.go:186-206 | The "admin" subject passes CheckUser and CheckAdmin, whatever the users table holds. |
| Access.MissingSubjectIsServerError | handler/user.go:188-200 | A subject whose row is missing gets 50005, not 40100. |
| Access.StoredUserIsNeverAdmin | handler/admin.go:107-115 | With well-formed rows (11-byte phones), no subject other than "admin" passes CheckAdmin. |
| Accounts.RegisterGuard | handler/user.go:13-48 | Failed binding (malformed body or any empty field) gives 40000, then a wrong invite code gives 40001, then a short password or a phone other than 11 bytes gives 40002. The guard passes iff none applies. |
| Accounts.EmptyUsernameFailsBinding | handler/user.go:14 | An empty username is refused by binding (40000), never by the 40002 rule. |
| Accounts.UserRegister | handler/user.go:20-100 | After the guard: 50000 for a failed lookup, 40003 for a taken phone, 50001 for a failed hash, 50002 for a failed insert. Success (20000) iff none applies, and it adds exactly the row (username, hash, phone, "user") under the phone. Any other outcome leaves the table unchanged. |
| Accounts.RegisterKeepsUsersWellFormed | handler/user.go:41-94 | Registration keeps every row well formed: keyed by its 11-byte phone, with a non-empty username and role "user". Success adds exactly one key. |
| Accounts.UserLogin | handler/user.go:115-184 | Binding (40004), then length rules (40005), then the lookup (50003 on a fault, 40006 for a missing phone), then the password (40007). Success iff all pass; it answers a user-audience token for the phone, with the stored phone and username. |
| Accounts.LoginAfterRegister | handler/user.go:20-184 | After a successful registration the same phone and password log in and get back the registered username. |
| Accounts.LoginTokenOpensUserRoutes | handler/user.go:163 | For three days a login token is admitted on the user routes and resolves to the user who logged in. It is refused on the admin routes. |
| Accounts.GetUserInfoByPhone | handler/user.go:212-257 | A parameter that is not 11 bytes gives 40008, checked before CheckUser. Then CheckUser's errno, then 50006 or 40010. Success returns exactly the stored row. |
| Accounts.InfoLengthCheckPrecedesAuth | handler/user.go:215-228 | A malformed phone parameter gives 40008 even for a caller with no identity. |
| Accounts.PatchUser | handler/user.go:301-327 | The username changes iff a non-empty one is given, and the hash iff a password is given. Phone and role never change. |
| Accounts.ModifyUserSelf | handler/user.go:259-342 | The admin subject is refused (40012) before the resolution error (50007) is looked at. A body that does not bind gives 40013; a 1-5 byte password 40014; a failed hash 50010; a failed save 50011. Success iff resolution, body, hash and save all succeed; only the caller's row is replaced by its patch. Otherwise the table is unchanged. |
| Accounts.PatchKeepsUsersWellFormed | handler/user.go:301-329 | A self update keeps the rows well formed and the keys the same, and leaves every other row as it was. |
| Accounts.LoginAfterPasswordChange | handler/user.go:306-327 | After a password change the new password logs in and the old one gets 40007. |
| Accounts.AdminKeyOf | handler/admin.go:18-44 | An unopenable file is refused. The result is Ok iff some line starts with "HashedPassword=" and the first such line holds more than the prefix; the hash is then exactly the rest of that first line. With no such line: a read error, or else an empty key. |
| Accounts.GetAdminPassword | handler/admin.go:18-44 | The scanning loop computes exactly AdminKeyOf. |
| Accounts.EmptyAdminKeyRefused | handler/admin.go:39-41 | A first key line holding only the prefix counts as no key. |
| Accounts.AdminLogin | handler/admin.go:46-104 | A key-file failure gives 50010, then a missing or empty password 40010, then a mismatch 40011. Success iff all pass, with a token whose subject and audience are "admin"; no token otherwise. |
| Accounts.AdminTokenOpensAdminRoutes | handler/admin.go:89-103 | For three days the administrator's token is admitted on the admin routes and passes CheckAdmin. It is refused on the user routes with 40150. |
| Accounts.AdminRemoveUserByPhone | handler/admin.go:134-184 | CheckAdmin (40012), then phone length (40013), then the lookup (50016, or 40010 for a missing phone), then the delete (50017). Success iff all pass; it removes exactly that phone's row and returns the deleted user. Otherwise nothing changes. |
| Accounts.RemovalTouchesOnlyThatRow | handler/admin.go:168-182 | A removal keeps the rows well formed, removes the phone on success and leaves every other row as it was. |
| Accounts.UsersCannotRemove | handler/admin.go:135-137 | A caller with a user subject always gets 40012 and nothing is removed. |
| Customers.Overlay | handler/customer.go:133 | gorm `Updates` with a struct: each non-empty field of the request replaces the stored one; empty fields keep it. |
| Customers.Updated | handler/customer.go:133 | Same length; exactly the rows carrying the id are overlaid, in place. |
| Customers.Kept | handler/customer.go:174 | The rows left are exactly the stored rows whose id differs. |
| Customers.Removed | handler/customer.go:174 | The rows removed are stored rows that carry the id. |
| Customers.DeleteSplitsTable | handler/customer.go:174 | The kept and removed rows together are, as a multiset, exactly the rows there were. |
| Customers.RemovedIffTaken | handler/customer.go:174-191 | A delete removes something exactly when some row carries the id. |
| Customers.KeptKeepsIdsUnique | handler/customer.go:174 | Deleting keeps customer ids unique. |
| Customers.AppendKeepsIdsUnique | handler/customer.go:29-55 | Appending a row whose id is not taken keeps customer ids unique. |
| Customers.UpdateCanDuplicateIds | handler/customer.go:115-156 | An update can copy another row's customer_id, so ModifyCustomers does not keep ids unique. |
| Customers.CustomerTable.CreateCustomer | handler/customer.go:11-61 | CheckUser, then binding (40080), then the lookup (50080), then a taken id (40081), then the insert (50081). Success (20080) iff all pass, and it appends exactly the request row; otherwise rows are unchanged. Unique ids are kept. |
| Customers.CustomerTable.UserListCustomers | handler/customer.go:63-89 | CheckUser, then 50082 for a failed query. Otherwise every row in order, with only its phone replaced by "***********". |
| Customers.CustomerTable.AdminListCustomers | handler/customer.go:91-113 | CheckAdmin (40012), then 50082 for a failed query. Otherwise exactly the stored rows. |
| Customers.CustomerTable.ModifyCustomers | handler/customer.go:115-156 | CheckAdmin, then binding (40082), then the update (50083). Then 40083 iff no row carries the id; on success the table is Updated. Otherwise nothing changes. |
| Customers.CustomerTable.DeleteCustomers | handler/customer.go:158-197 | CheckAdmin, then an empty id (40083), then the delete (50084), then 40084 iff no row carries the id. On success the table is Kept, and unique ids stay unique. |
| Listings.Rules | handler/property.go:34-86 | There are ten rules, in the order Validate checks them, each with its message. |
| Listings.Validate | handler/property.go:34-86 | Accepts (true, "") iff all ten range rules hold. Otherwise it answers false with the message of a broken rule that every earlier rule passes. |
| Listings.MessagesIdentifyRules | handler/property.go:34-86 | The ten messages are pairwise distinct, so the message identifies the failed rule. |
| Listings.RegionCodeReportedFirst | handler/property.go:34-38 | An out-of-range region code is reported whatever else is wrong. |
| Filter.BucketConditions | handler/property.go:579-585 | The loop collects, in order, the range of each chosen bucket index. |
| Filter.WhereInBuckets | handler/property.go:579-602 | Adding the bucket clause restricts the query to listings whose price (size) lies in one of the chosen ranges. Nothing changes when none is chosen. |
| Filter.WhereIn | handler/property.go:605-622 | Adding `facet IN values` restricts to listings whose facet is listed. Nothing changes for an empty list. |
| Filter.WhereAddress | handler/property.go:561-569 | The address clause admits exactly the listings AddressMatches allows: no restriction for province 0, then the province prefix, the city prefix or the exact district. |
| Filter.SelectQuery | handler/property.go:558-622 | The query the handler builds is satisfied by exactly the listings the reference predicate Selects accepts. |
| Filter.EmptyRequestSelectsAll | handler/property.go:558-622 | Province 0 with all lists empty selects every listing. |
| Filter.BucketsPartition | handler/property.go:571-594 | Each bucket table covers [0, MaxFloat64) without overlap, and nothing outside it. |
| Filter.PriceBucketExample | handler/property.go:579-585 | Price buckets [1, 3] accept 250 and 600 and refuse 50. |
| Filter.ProvinceTier | handler/property.go:562-563 | With city 1, a six-digit district matches iff its first two digits are the province's. |
| Filter.CityTier | handler/property.go:564-565 | With district 0, a six-digit district matches iff its first four digits are the city's. |
| Filter.ShortProvinceSelectsNoDistrict | handler/property.go:563 | A province below 10000 asks for the prefix "00", which no six-digit district has. |
| Catalog.HouseIdOf | handler/property.go:164 | A houseID parameter denotes an id iff it is a non-empty string of decimal digits. |
| Catalog.HouseIdOfDigits | handler/property.go:164 | The decimal text of an id denotes that id. |
| Catalog.ImageOwner | handler/property.go:212 | strconv.ParseUint(..., 32) with its error ignored: ids up to 4294967295 are kept, larger ones saturate to 4294967295. |
| Catalog.FindProperty | handler/property.go:164 | The first position holding the id, or None when no listing has it. |
| Catalog.LookupHouse | handler/property.go:164-171 | A found position holds a listing whose id the parameter denotes. Nothing is found iff the query fails, the parameter is no number, or no listing has that id. |
| Catalog.CoverOf | handler/property.go:475-489 | A cover exists iff the listing has a main image, and it is the URL of one of its main images. |
| Catalog.CoverOfAppend | handler/property.go:475 | For a listing with no rows, rows appended later alone decide its cover. |
| Catalog.CoverAfterCreate | handler/property.go:207-266 | A batch for a listing with no images, whose first row is its main image, makes that row's URL its cover. |
| Catalog.BatchKeepsOneMain | handler/property.go:238-266 | Such a batch, whose only main image is its first row, keeps at most one main image per listing. |
| Catalog.Matching | handler/property.go:625 | The rows a query returns are exactly the stored listings that satisfy it. |
| Catalog.MatchingIsSelected | handler/property.go:548-632 | A query that means the request returns exactly the listings the request selects, in table order. |
| Catalog.Catalog.CreatePropertyImage | handler/property.go:146-274 | The checks in order, each adding no row: CheckUser, an empty id (40030), a missing listing (40031), an image-query fault (50030), existing image rows (40032), a form that does not parse (40032). With no files, one default main row (20030) or 50035. With files, the InsertImages outcome. The listing invariant is kept; listings never change; image rows are only appended. |
| Catalog.Catalog.InsertImages | handler/property.go:236-273 | Row i is the uploaded URL with IsMain = (i == 0). It stops only at the first failed upload (50036) or insert (50037), keeping the earlier rows; 20000 after the last file; no other errno. |
| Catalog.Catalog.CreatePropertyRichText | handler/property.go:276-383 | CheckUser, then 40040, 40041, then 40042 (a page already stored or a bad form). No files: 50041, or 20000 followed by a panic. Otherwise an optional 40044, then 50040 or 50041, or 20000 with that listing's page URL set. Only a final 20000 changes the table, and only that listing's URL. |
| Catalog.Catalog.ListResponses | handler/property.go:470-502 | One entry per listing, in order, with its cover. The whole list fails with 50061 iff some listing has no main image (or the image query fails). |
| Catalog.Catalog.ListProperty | handler/property.go:504-530 | CheckUser, then 50060. Past those, Ok iff every listing has a main image and the image query succeeds (when there is a listing), else 50061. On Ok, the entries of every listing, in table order, with covers. |
| Catalog.Catalog.SelectProperties | handler/property.go:548-644 | Binding (40070), then a bucket index out of range (panic), then 50060. Past those, Ok iff every selected listing has a main image and the image query succeeds (when one is selected), else 50061. On Ok, exactly the selected listings, in table order, each with its cover. No CheckUser. |
| Catalog.SecondRichTextRefused | handler/property.go:294-311 | Once a page URL is stored, the same listing is found again with a non-empty URL, so a second upload gets 40042. |
| Catalog.UploadedPageUrlNonEmpty | handler/property.go:359-370 | A stored page URL is never empty. |

## Left out

- Database access (gorm, PostgreSQL) is abstract. Each call is a fault flag, and tables are Dafny maps and sequences. The gorm bookkeeping columns and soft delete are not modelled: a deleted row simply disappears.
- The unique indexes on username and phone are not modelled separately. A duplicate that reaches the store is one more way the insert can fail, which is its fault flag.
- Accounts.UserRegister: after Accounts.AdminRemoveUserByPhone, the soft-deleted row keeps its unique-index entries on username and phone (module/user.go:10,12), so registering the same phone or username again always fails with 50002. The model drops the row, so that failure depends only on the insert's fault flag.
- Row order of queries without ORDER BY is taken to be table (insertion) order.
- bcrypt is abstract: a hash outcome and the `verify` function. JWT signing and signature checking are the library's, given as `parse`. Signing errors (50004 in UserLogin, 50011 in AdminLogin) are not modelled, as signing with an HMAC key does not fail.
- Time is abstract: `now` as a Unix time, the upload stamp as a digit string, `createdAt` as already-formatted text.
- Access.JWTAuth: slices the header by characters. Go slices bytes, so a header with non-ASCII characters in its first seven bytes is not modelled exactly.
- Catalog.HouseIdOf: only a plain run of digits is taken as an id. Other texts PostgreSQL would cast to an integer (a sign, surrounding spaces) are treated as matching no listing.
- Catalog.Catalog.Valid: assumes listing ids fit in 32 bits, as serial ids do. ImageOwner saturation is modelled, but no stored listing reaches it.
- The nil check on the first rich-text file (40043) is left out, since a multipart form never holds a nil file.
- Objects uploaded before a later failure stay in the object store. The model does not track the object store's contents, only what is asked of it.
- ObjectStorage.UploadImageToOSS: requires a file name without '/' and a digit-only stamp. Go's multipart reader strips directories from file names and the stamp is a formatted time, so filepath.Join's cleaning of names is not modelled.
- Tokens.InitJWTKey and Accounts.GetAdminPassword: a read error is modelled as occurring after the last line that was read, so the model reports it only when the loop reaches the end without a key line. In the source, scanner.Err() is consulted after the loop either way (utils/jwt/jwt.go:34, handler/admin.go:35), so an error the scanner met while buffering ahead of the key line would also be reported; the model does not track how far ahead the scanner has read. The fatal log at startup is modelled as an error result, and the global JWTKey as the returned key.
- ListUser, CreatePropertyBaseInfo and GetPropertyByID are left out: they are single-row CRUD with no rule beyond the ones modelled here (Validate is modelled).
- The handlers ModifyPropertyImage, ModifyPropertyBaseInfo, ModifyPropertyRichText, DeleteProperty, SearchPropertyByAddr and AdminModifyInviteCode are referenced by the routes, but their source is not part of this model. Hence there is no transactional photo-set replacement.
- Concurrency between requests is not modelled. Every handler is one atomic step.
- Price and size are float64 in the source and reals here; they are only compared with the bucket bounds and 0.
- JSON encoding of responses and messages is left out. Handlers answer their errno and the data they return.

## Findings

| source | as written | input that shows it | evidently intended | confidence | as-written member | corrected member |
|---|---|---|---|---|---|---|
| utils/jwt/jwt.go:28-29 | The scan tests the prefix "JWTKEY=" but trims "JWTKey=", so the loaded key is the whole line, prefix included. The empty-key check can then never fire. | A key file whose only line is `JWTKEY=` loads the key "JWTKEY=" and startup goes on. | Trim the prefix that was tested and refuse an empty value, as getAdminPassword does for its key file. | not executed | Tokens.InitJWTKey, Tokens.KeyLineKeptWhole | Tokens.IntendedJWTKey |
