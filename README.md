# food-app-server core, modelled in Dafny

This project models the back end of a food-ordering app written in NestJS and
TypeORM. It covers three parts of that back end:

- **The session logic.** Registration, login, and a refresh-token flow.
  Each user row has a single refresh-token slot.
- **The image glue.** This names an uploaded file on the image host
  (Cloudinary). It also works out, from a delivery URL, which asset to destroy.
- **The catalogue and profile services.** These cover categories, menus,
  products, toppings, side options, user profiles and addresses.

Each database table is a `Tables.Table<T>` object over a `map<nat, T>`. New
keys come from a sequence that starts at 1. The image host is an
`FileOperation.ImageHost` object that holds a set of public ids. The service
classes change both step by step, as the TypeScript services do.

For the session and profile operations, the behaviour is also given as a
function from the state before the call to the result and the state after it,
for example `Auth.SignUpOutcome`. Each service method is proved to agree with
its function, and the lemmas are stated over those functions.

Some of the original's behaviour lies outside its own code. The model states
these facts explicitly:

- The database's unique constraints on email and phone number, and its NOT NULL
  constraints on the menu description and the side-option image URL.
- The `ON DELETE CASCADE` from products to toppings and side options.
- TypeORM refusing an update with no values.
- multer's memory storage, which leaves `file.filename` unset.
- The version segment `v<digits>` the image host puts after `upload` in every
  delivery URL it returns.
- TypeORM's `repository.create`, which keeps only the entity's own properties,
  and its cascading insert of a product's side options.
- jsonwebtoken's verify and decode semantics, including expiry at `now >= exp`.
- The JavaScript string functions `split`, `indexOf`, `slice` and `join`.
- PostgreSQL `ILIKE` with `%`, `_` and backslash.

Outside inputs become parameters. These are the clock (`now`), the bcrypt salt,
the JWT secrets (`Auth.JwtConfig`, where either may be unset), the uploaded
file and the version the image host stamps on an upload (`version`).

The services follow the code as written, including three behaviours that look
unintended; they are listed under "Findings".

## Model

| member | source | states |
|---|---|---|
| Strings.Split | src/utils/fileOperation.ts:46 | `split` yields at least one segment, and no segment contains the separator |
| Strings.SplitHead | src/utils/fileOperation.ts:19 | the first segment is a prefix of the string, ending at the first separator or at the end |
| Strings.IndexOf | src/utils/fileOperation.ts:50 | `indexOf` gives -1 exactly when the segment is absent; otherwise it gives the first position holding it |
| Strings.JoinSplit | src/utils/fileOperation.ts:46-51 | joining the segments of a split with the same separator gives back the string |
| Strings.SplitJoin | src/utils/fileOperation.ts:46-51 | splitting a join of separator-free segments gives back the segments |
| Strings.SplitAround | src/utils/fileOperation.ts:46 | splitting `a + sep + b` is splitting `a` followed by splitting `b` |
| Strings.Lower | src/auth/auth.service.ts:37 | `toLowerCase` keeps the length and lowers each character |
| Like.ContainsPatternIsSubstring | src/category/category.service.ts:22 | for a name without wildcards, `LIKE '%name%'` holds exactly when the name is a substring |
| Like.ILike | src/category/category.service.ts:22 | `s ILIKE p` is `LIKE` with both sides lower-cased, where `%` is any run of characters, `_` any one character and a backslash escapes the next |
| Like.ILikeIsCaseInsensitiveSubstring | src/category/category.service.ts:22 | for a name without wildcards, `ILIKE '%name%'` is case-insensitive substring containment |
| Like.UnderscoreNameMatchesEveryNonEmpty | src/category/category.service.ts:22 | the pattern built from the name `_` matches every non-empty string |
| Like.MatchesOwnPattern | src/category/category.service.ts:22 | a name without wildcards matches its own `%name%` pattern |
| Like.LeadingPercent | src/category/category.service.ts:22 | a leading `%` matches when some suffix matches the rest of the pattern |
| Tables.Table.Get | src/menu/menu.service.ts:42 | `findOneBy({ id })` yields the row under that key, or none when the key is absent |
| Tables.Table.Find | src/category/category.service.ts:21-23 | `findOne({ where })` finds a row meeting the condition, or reports that none does |
| Tables.Table.Insert | src/category/category.service.ts:29-31 | `save` of a new entity adds exactly one row, under the next unused key |
| Tables.Table.Put | src/category/category.service.ts:51 | `update(id, ...)` replaces that row if it exists and changes nothing else |
| Tables.Table.Delete | src/menu/menu.service.ts:98 | `delete(id)` removes exactly that key |
| Tables.Table.DeleteWhere | src/product/product.service.ts:178 | the cascade keeps exactly the rows that do not belong to the deleted parent |
| Bcrypt.CompareHash | src/auth/auth.service.ts:33 | `compare` against a hash accepts exactly the password that was hashed |
| Jwt.Sign | src/auth/auth.service.ts:119-122 | `sign` fails exactly when the secret is unset; otherwise the token carries the claims, expiring seven days after `now` |
| Jwt.SignThenVerify | src/auth/auth.service.ts:69-71 | a signed token verifies under its secret until seven days have passed, and counts as expired from then on |
| Jwt.OtherSecretRejects | src/auth/auth.service.ts:69-71 | a token signed with another secret is invalid, never expired |
| Jwt.SigningsDifferByTime | src/auth/auth.service.ts:119-122 | two signings give the same token exactly when they happen in the same second |
| Entities.WriteKeepsUnique | src/auth/auth.service.ts:41 | a write the unique constraints admit leaves emails and set phone numbers unique |
| Auth.GenerateAccessToken | src/auth/auth.service.ts:117-125 | the token exists exactly when the access secret is set; it verifies under that secret with claims `{ userId, email }` and runs seven days |
| Auth.GenerateRefreshToken | src/auth/auth.service.ts:127-135 | the same as `GenerateAccessToken`, under the refresh secret |
| Auth.AccessTokenIsNoRefreshToken | src/auth/auth.service.ts:69-71 | with distinct secrets, an access token presented for refresh is rejected as invalid |
| Auth.UserWithEmail | src/auth/auth.service.ts:27 | `findOne({ where: { email } })` finds a user with exactly that email, or reports that none exists |
| Auth.SignUpOutcome | src/auth/auth.service.ts:22-48 | `signUp`: the exact-email conflict check, the save of the lower-cased user (which the unique constraint may refuse), then the two signings; a signing failure keeps the saved row, and success fills the refresh-token slot |
| Auth.SignUpExistingEmail | src/auth/auth.service.ts:27-31 | an email present exactly as given is a conflict, with nothing changed |
| Auth.SignUpCaseVariantHitsConstraint | src/auth/auth.service.ts:27-41 | an email matching a stored one only after lower-casing passes the lookup; the unique constraint then refuses it with nothing changed |
| Auth.SignUpSuccess | src/auth/auth.service.ts:33-47 | success adds exactly one user under a fresh key: lower-cased email, a stored hash that accepts exactly the given password, role USER, and the returned refresh token in the slot; both tokens carry the new id and email |
| Auth.SignUpSigningFailureKeepsUser | src/auth/auth.service.ts:41-44 | a signing failure after the save leaves the new user stored, with an empty slot |
| Auth.SignInOutcome | src/auth/auth.service.ts:50-65 | `signIn`: the exact-email lookup and the password comparison, each failing as "Invalid credentials", then the two signings; success fills that user's slot |
| Auth.SignInRejectsAlike | src/auth/auth.service.ts:55-57 | an unknown email and a wrong password give the same "Invalid credentials" error, with nothing changed |
| Auth.SignInSuccess | src/auth/auth.service.ts:60-64 | a login writes the returned refresh token into that user's slot and changes no other row |
| Auth.LoginSupersedesOlderToken | src/auth/auth.service.ts:60-64 | after a login, any other unexpired refresh token of that user is refused |
| Auth.MixedCaseEmailCannotLogIn | src/auth/auth.service.ts:37 | a user who registered with upper-case letters cannot log in with the email as typed |
| Auth.RefreshOutcome | src/auth/auth.service.ts:67-115 | `refreshToken` as written: verification, user and slot checks, and an access token; on expiry the decoded id is re-read and a new pair signed, with the presented token stored; every other failure is relabelled |
| Auth.RefreshWithLiveToken | src/auth/auth.service.ts:69-81 | a valid unexpired token succeeds exactly when the user exists, the slot holds that token and the access secret is set; it returns one access token, and the table never changes |
| Auth.RefreshWithBadSignature | src/auth/auth.service.ts:82-113 | a token that fails verification other than by expiry gives "Refresh token invalid", with nothing changed |
| Auth.RefreshErrorsAreRelabelled | src/auth/auth.service.ts:82-113 | every refresh error reaches the caller as "Refresh token invalid" or "Refresh token expired" |
| Auth.RefreshRecoversExpired | src/auth/auth.service.ts:85-107 | an expired token of an existing user yields a fresh pair without consulting the slot; the slot is set to the presented expired token |
| Auth.RefreshRecoveryFailure | src/auth/auth.service.ts:86-110 | a missing user id, a missing user or a signing error during recovery gives "Refresh token expired", with nothing changed |
| Auth.RegisteredTokenRefreshes | src/auth/auth.service.ts:43-81 | a refresh token from registration, presented within seven days, yields an access token for the new user |
| Auth.RecoveredTokenIsRefused | src/auth/auth.service.ts:105 | the refresh token that recovery returns is refused when it is presented |
| Auth.ExpiredTokenRenewsAgain | src/auth/auth.service.ts:85-107 | an expired token keeps yielding new pairs, however late it is presented |
| Auth.RefreshOutcomeStoringNewToken | src/auth/auth.service.ts:67-115 | `refreshToken` with line 105 storing the new refresh token instead of the presented one; every other step as written |
| Auth.CorrectedRecoveredTokenRefreshes | src/auth/auth.service.ts:101-107 | when recovery stores the new refresh token, that token refreshes within seven days |
| Auth.AuthService.UpdateRefreshToken | src/auth/auth.service.ts:137-139 | only the named user's slot changes, and the constraints still hold |
| Auth.AuthService.SignUp | src/auth/auth.service.ts:22-48 | the step-by-step registration ends in the result and table `SignUpOutcome` gives |
| Auth.AuthService.SignIn | src/auth/auth.service.ts:50-65 | the step-by-step login ends in the result and table `SignInOutcome` gives |
| Auth.AuthService.RefreshToken | src/auth/auth.service.ts:67-115 | both `try` blocks and their `catch`es end in the result and table `RefreshOutcome` gives |
| FileOperation.UploadPublicId | src/utils/fileOperation.ts:19 | the upload's `public_id` is the file name up to its first `.`, or the whole name if it has none |
| FileOperation.LastSegmentId | src/utils/fileOperation.ts:46-48 | the public id taken from the last `/` segment contains no `.` and no `/` |
| FileOperation.FolderPath | src/utils/fileOperation.ts:50-51 | the segments after the first `upload` segment (after none when it is absent) and before the last, joined with `/` |
| FileOperation.FullPublicId | src/utils/fileOperation.ts:52 | the folder path, `/` and the public id when the folder path is non-empty, else the public id alone |
| FileOperation.ExtractPublicId | src/utils/fileOperation.ts:46-56 | extraction fails, with "Could not extract public ID from URL", exactly when both folder and public id are empty; otherwise the id is non-empty |
| FileOperation.DeleteTarget | src/utils/fileOperation.ts:42-63 | the id destroyed is the extracted one, and every failure is reported as "Failed to delete file from Cloudinary" |
| FileOperation.FolderPathWithoutMarker | src/utils/fileOperation.ts:50-51 | without an `upload` segment the folder is every segment but the last |
| FileOperation.SplitOfUrl | src/utils/fileOperation.ts:46 | the segments of `prefix/upload/folder/name` are the prefix's, `upload`, the folder's and the name |
| FileOperation.ExtractFromUploadUrl | src/utils/fileOperation.ts:46-52 | from `p/upload/F/N`, where `p` has no `upload` segment, the folder comes back as `F` and the id as the upload rule applied to `N` |
| FileOperation.Digits | src/utils/fileOperation.ts:30 | a version is written as one or more decimal digits |
| FileOperation.VersionSegment | src/utils/fileOperation.ts:30 | the version segment of a delivery URL is `v` and digits, with no `/` |
| FileOperation.DeleteTargetOfUploadUrl | src/utils/fileOperation.ts:46-52 | as written, deleting by the URL an upload returned targets the version segment, then the folder, then the upload's `public_id`: the version is read as part of the folder |
| FileOperation.UploadedImageSurvivesDeletion | src/utils/fileOperation.ts:50-58 | as written, the asset an upload created is still held after deleting by the URL that upload returned |
| FileOperation.VersionedFolderSegments | src/utils/fileOperation.ts:46 | what follows `upload/` splits into the version segment and then the folder's segments |
| FileOperation.SegmentsOfVersionedUrl | src/utils/fileOperation.ts:46 | the segments of `prefix/upload/v<digits>/folder/name` are the prefix's, `upload`, the version, the folder's and the name |
| FileOperation.SegmentsOfDeliveryUrl | src/utils/fileOperation.ts:46 | the same for a delivery URL, whose prefix is the host's base |
| FileOperation.ExtractPublicIdSkippingVersion | src/utils/fileOperation.ts:46-56 | the corrected extraction fails, with the same message, exactly when both the version-free folder and the public id are empty |
| FileOperation.SkippingVersionOfSegments | src/utils/fileOperation.ts:50-51 | the corrected folder path of `p/upload/v<digits>/F/N`, with no `upload` in `p`, is `F` joined, and the id is the upload rule applied to `N` |
| FileOperation.JoinFolderSegments | src/utils/fileOperation.ts:51 | joining a folder's segments gives back the folder |
| FileOperation.CorrectedDeletionRemovesUpload | src/utils/fileOperation.ts:17-19 | with the version skipped, deleting by the URL an upload returned targets exactly the asset it created (folder plus `public_id`), which is then gone, unless both are empty |
| FileOperation.Destroyed | src/utils/fileOperation.ts:58 | after a deletion the host no longer holds the extracted id; a URL whose extraction fails leaves the holdings unchanged |
| FileOperation.DeleteResult | src/utils/fileOperation.ts:54-62 | a deletion resolves exactly when extraction succeeds, and otherwise rejects with the deletion error |
| FileOperation.UploadFile | src/utils/fileOperation.ts:6-40 | an upload adds the asset folder/`public_id` and returns its delivery URL, with its version segment; an undefined file name fails with "Failed to upload file to Cloudinary" |
| FileOperation.DeleteFile | src/utils/fileOperation.ts:42-63 | a deletion removes the extracted id from the host, or fails with nothing removed |
| FileOperation.Replacement | src/menu/menu.service.ts:62-71 | the deletion by the current URL (when it is set, or always when unchecked), whose failure ends the call, then the upload, whose failure ends it too; otherwise the new URL and the new asset |
| FileOperation.ReplaceFile | src/menu/menu.service.ts:62-71 | deleting by the old URL, then uploading, ends in the URL and holdings `Replacement` gives |
| FileOperation.ReplacementSwapsImages | src/menu/menu.service.ts:62-71 | a successful replacement destroys the id extracted from the old URL when it was due for deletion, adds the new asset and yields its versioned URL |
| FileOperation.ReplacingNoImageFails | src/menu/menu.service.ts:64-66 | without an "is there an image" check, a record with no image cannot take a new one: deleting by the empty URL fails first |
| FileOperation.PublicIdsUnion | src/product/product.service.ts:162-176 | the ids named by two sets of URLs are the union of each set's ids, and both sets are deletable exactly when their union is |
| FileOperation.DeletionRounds | src/product/product.service.ts:162-176 | two deletion rounds in a row bound the holdings as one round over both sets would |
| FileOperation.DestroyedOneMore | src/product/product.service.ts:166-170 | deleting by one more set URL removes exactly the id extracted from it |
| FileOperation.DeleteImages | src/product/product.service.ts:166-170 | a loop of deletions succeeds exactly when every set URL is extractable, then removes all the ids extracted from them; the first failure stops it part-way |
| Categories.NameTakenMeansContained | src/category/category.service.ts:21-27 | for a name without wildcards, the lookup finds exactly the categories whose name contains it, ignoring case |
| Categories.NoSecondCategory | src/category/category.service.ts:21-33 | once a category is created, another with the same name is refused |
| Categories.UnderscoreNameBlocked | src/category/category.service.ts:22 | the name `_` is refused once any category has a non-empty name |
| Categories.CategoryService.Create | src/category/category.service.ts:18-34 | a conflict is reported exactly when the lookup finds a row, with nothing changed; otherwise exactly one row with that name is added |
| Categories.CategoryService.FindAll | src/category/category.service.ts:36-40 | every category is returned |
| Categories.CategoryService.Update | src/category/category.service.ts:42-54 | a missing id gives "Category not found" and an empty update is refused, both with nothing changed; otherwise only that row takes the new name, with no conflict check |
| Menus.ChangeStatusTwiceRestores | src/menu/menu.service.ts:112-113 | changing the status twice restores the table |
| Menus.ChangeStatusMovesMenu | src/menu/menu.service.ts:35-39 | changing the status moves that menu into or out of the listing, and no other |
| Menus.MergeKeepsAbsentFields | src/menu/menu.service.ts:73-79 | the merge takes each field the patch gives, keeps every other field and the status, and stores the image URL |
| Menus.MenuService.Create | src/menu/menu.service.ts:15-33 | the image is uploaded first; a missing description is then refused by NOT NULL, with the image left on the host; otherwise one menu with the uploaded URL and status true is added |
| Menus.MenuService.FindAll | src/menu/menu.service.ts:35-39 | exactly the menus whose status is true |
| Menus.MenuService.FindOne | src/menu/menu.service.ts:41-49 | the menu, or "Menu not found" |
| Menus.MenuService.Update | src/menu/menu.service.ts:51-85 | a missing id gives "Menu not found"; without a file the image URL is kept; with one the id extracted from the old URL is destroyed (unchecked) and the new URL stored; only that row changes |
| Menus.MenuService.Remove | src/menu/menu.service.ts:87-101 | a missing id gives "Menu not found"; the id extracted from the image URL is destroyed if the URL is set; only that row goes, and only once the deletion succeeded |
| Menus.MenuService.ChangeStatus | src/menu/menu.service.ts:103-119 | a missing id gives "Menu not found"; otherwise only that menu's status is negated |
| Products.FilterRules | src/product/product.service.ts:87-98 | no filter selects all; a category alone selects its products, a query alone the names containing it ignoring case, and both the conjunction; 0 and "" count as absent |
| Products.NameTakenIsPerCategory | src/product/product.service.ts:27-36 | a new product makes its name taken in its own category, and leaves the lookup for every other category and name as it was |
| Products.ToppingsAreDropped | src/product/product.service.ts:52-56 | the saved row does not depend on the DTO's `toppings`, which names no relation of the entity; it carries the uploaded URL and rating 0 |
| Products.ProductService.Create | src/product/product.service.ts:23-61 | the name check comes first, then the category check, with nothing changed on either failure; then the image is uploaded; a non-empty `sideOption` array is then refused by NOT NULL, with no row written and the image left on the host; otherwise one product linked to the category, with rating 0, available, and the uploaded URL |
| Products.ProductService.FindAll | src/product/product.service.ts:63-110 | exactly the summaries (id, name, price, available, type, image URL) of the selected products |
| Products.ProductService.FindOne | src/product/product.service.ts:112-120 | the product, or "Product not found" |
| Products.ProductService.Update | src/product/product.service.ts:122-150 | a missing id gives "Product not found"; without a file the image URL is kept; with one the id extracted from the old URL is destroyed (unchecked) and the new URL stored; only that row changes |
| Products.ProductService.DeleteAttachedImages | src/product/product.service.ts:162-176 | deletion by the product's image URL, then its toppings', then its side options'; success removes all the ids extracted from them, and the first failure stops the call |
| Products.ProductService.Remove | src/product/product.service.ts:152-184 | a missing id gives "Product not found"; once every deletion by an attached image URL succeeded the product row goes, and the cascade removes its toppings and side options; a failed deletion leaves every row |
| Toppings.NameTakenMeansContained | src/topping/topping.service.ts:28-37 | the lookup finds exactly the toppings of that product whose name contains the new one, ignoring case |
| Toppings.ToppingService.Create | src/topping/topping.service.ts:23-60 | a conflict, then "Product not found", both with nothing changed; otherwise one topping linked to the product, with the uploaded URL |
| Toppings.ToppingService.FindAll | src/topping/topping.service.ts:62-91 | exactly that product's toppings, as five-field summaries |
| Toppings.ToppingService.FindOne | src/topping/topping.service.ts:93-101 | the topping, or "Topping not found" |
| Toppings.ToppingService.Update | src/topping/topping.service.ts:103-131 | a missing id gives "Topping not found"; without a file the image URL is kept; only that row changes |
| Toppings.ToppingService.Remove | src/topping/topping.service.ts:133-147 | a missing id gives "Topping not found"; the id extracted from the image URL is destroyed if the URL is set; then exactly that row goes |
| SideOptions.NameTakenMeansContained | src/side-option/side-option.service.ts:34-43 | the lookup finds exactly the options of that product whose name contains the new one, ignoring case |
| SideOptions.SideOptionService.Create | src/side-option/side-option.service.ts:29-66 | a conflict ("Side option already exists"), then "Product not found", both with nothing changed; otherwise one option linked to the product |
| SideOptions.SideOptionService.FindAll | src/side-option/side-option.service.ts:68-97 | exactly that product's options, as five-field summaries |
| SideOptions.SideOptionService.FindOne | src/side-option/side-option.service.ts:99-107 | the option, or "Side option not found" |
| SideOptions.SideOptionService.Update | src/side-option/side-option.service.ts:109-137 | a missing id gives "Side option not found"; without a file the image URL is kept; only that row changes |
| SideOptions.SideOptionService.Remove | src/side-option/side-option.service.ts:139-153 | a missing id gives "Side option not found"; the id extracted from the image URL is destroyed if the URL is set; then exactly that row goes |
| Users.ProfileOutcome | src/user/user.service.ts:34-64 | `updateProfile` as written: the user lookup, then with a file the replacement of the image using `file.filename`, without one the URL "", then the merge and the unique constraints |
| Users.ProfileOutcomeByOriginalName | src/user/user.service.ts:34-64 | `updateProfile` with the upload named by `file.originalname`; every other step as written |
| Users.ProfileOfMissingUser | src/user/user.service.ts:39-43 | a missing user gives "User not found", with nothing changed |
| Users.ProfileWithoutFileClearsImage | src/user/user.service.ts:45-58 | without a file, whenever the unique constraints admit the merged row, the result is the patch merged with image URL "", it replaces that row only, and the host is untouched |
| Users.ProfileEmailClash | src/user/user.service.ts:58 | taking another user's email is refused by the unique constraint, with the table unchanged |
| Users.ProfileImageAsWritten | src/user/user.service.ts:46-56 | with the file name memory storage provides, the upload always fails, after the deletion by the old URL (if any) |
| Users.ProfileImageByOriginalName | src/user/user.service.ts:46-58 | with the original file name, for every patch the unique constraints admit, the id extracted from the old URL is destroyed only if the URL is set, and the result is the patch merged with the new URL, replacing that row only |
| Users.AddAddressOutcome | src/user/user.service.ts:66-89 | `addUserAddress`: "User not found", or a new address with the given fields and coordinates converted by `Number`, linked to the user, under the next key |
| Users.UpdateAddressOutcome | src/user/user.service.ts:91-122 | `updateAddress`: the user check, then the address check, then the merge of the patch into that address, whoever it belongs to |
| Users.UpdateAddressChecksUserFirst | src/user/user.service.ts:101-107 | a missing user is reported before a missing address, with nothing changed |
| Users.UpdateAnyonesAddress | src/user/user.service.ts:96-120 | any existing user may update any address, also one linked to someone else; only that row changes, and absent coordinates become NaN |
| Users.UserService.GetProfile | src/user/user.service.ts:24-32 | the user, or "User not found" |
| Users.UserService.UpdateProfile | src/user/user.service.ts:34-64 | the step-by-step update ends in the result, table and holdings `ProfileOutcome` gives |
| Users.UserService.AddUserAddress | src/user/user.service.ts:66-89 | "User not found", or one new address linked to the user, as `AddAddressOutcome` gives |
| Users.UserService.UpdateAddress | src/user/user.service.ts:91-122 | the result and address table `UpdateAddressOutcome` gives |

## Left out

- Cryptography: bcrypt and JWT signatures are modelled symbolically. A digest records the password it was made from; a token records its secret. bcrypt's truncation of passwords at 72 bytes is not modelled.
- Lower-casing covers ASCII letters only: JavaScript's full Unicode case mapping is not modelled.
- The image host's network calls (`upload_stream`, `destroy`, `configureCloudinary`, stream piping) are replaced by the set of ids the host holds. Their own network failures, and the random id Cloudinary picks for an empty `public_id`, are not modelled. A delivery URL is modelled as the host's base, `upload`, the version segment, the folder and the uploaded file name; the real URL ends in the `public_id` and the detected format instead, which yields the same id.
- Prices, ratings and coordinates are exact reals. `parseFloat`, decimal column rounding and floating point are not modelled; `Number(undefined)` is modelled only as NaN.
- The controllers, guards, multer validation pipes, module wiring (also the JWT module's own default secret) and the seeder script are framework configuration or one-shot I/O, and are not modelled.
- An element of a product DTO's nested arrays is reduced to its name and price. Product `create` drops `toppings`; a non-empty `sideOption` fails on NOT NULL, so no nested insert ever succeeds and none is modelled further.
- Products.ProductService.Update: a patch carrying `toppings` or `sideOption` (the update DTO allows both) is not modelled; `ProductPatch` holds the column fields only, and what TypeORM's `update` does with a relation key is not modelled.
- The `FoodType` enum file is not part of this model. Values other than `VEG` are kept as an open set of names.
- Result order: every `find` is returned as a map or a set, so the order of rows is not modelled.
- `Promise.all` in `updateAddress` is treated as two sequential reads. Races between concurrent requests on the refresh-token slot are not modelled.
- Logging (`console.log`, `console.error`) is not modelled.
- A failed insert does not consume a key of the table's sequence. In PostgreSQL it does, but no property here depends on key values.
- A token whose user id is 0 or missing is treated as naming no user. `findOneBy({ id: undefined })` in the first refresh path, which TypeORM may answer with an arbitrary row, is not modelled.

## Findings

The services keep the behaviour as written. The corrected functions sit beside them in the same module, and the lemmas state what each version gives.

| source | as written | input that shows it | evidently intended | confidence | as-written member | corrected member |
|---|---|---|---|---|---|---|
| src/auth/auth.service.ts:105 | expiry recovery stores the presented, expired token in the user's slot | an expired but correctly signed refresh token of an existing user; the new refresh token it returns is then refused as "Refresh token invalid", while the old expired token keeps renewing | store `newRefreshToken`, so the returned pair is usable | not executed | Auth.RecoveredTokenIsRefused | Auth.CorrectedRecoveredTokenRefreshes |
| src/user/user.service.ts:51-55 | the upload receives `file.filename`, which multer's memory storage (user.controller.ts:39) leaves undefined | any profile update with a file; the deletion by the old URL runs first, then `undefined.split` makes the upload fail with "Failed to upload file to Cloudinary" | use `file.originalname`, as the other services do | not executed | Users.ProfileImageAsWritten | Users.ProfileImageByOriginalName |
| src/utils/fileOperation.ts:50-52 | the folder is everything between `upload` and the last segment, so it starts with the version segment `v<digits>` the host puts in every delivery URL | any image a service uploaded, later deleted by its stored URL (menu, product, topping or side-option update or remove, profile update): the id destroyed is `v<digits>/<folder>/<id>`, which the host does not hold, so the image stays | skip a `v<digits>` segment right after `upload` | not executed | FileOperation.UploadedImageSurvivesDeletion | FileOperation.CorrectedDeletionRemovesUpload |
