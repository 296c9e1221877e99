# SHV inventory: stock ledger and account gate

This project models the core of the SHV inventory application in Dafny and proves properties of the model. The application has two parts.

- An Express/Mongoose server keeps inventory items and user accounts.
  - Items are added, updated and checked out. Checkout lowers stock entry by entry, and nothing is rolled back.
  - Items are exported as spreadsheet rows.
  - The first account to register becomes the approved administrator. Later accounts wait for approval, and only approved accounts are given a login token.
- A React client has three pages in this model:
  - a checkout page that keeps a selection list and a search filter;
  - a dashboard that counts items;
  - a registration form that checks its fields in a fixed order.

Files:

- `wrappers.dfy`: `Option` and `Result`.
- `js_text.dfy`: the JavaScript string operations the code relies on. These are `trim` and `\s`, ASCII `toLowerCase`, `includes`, `toString` of a non-negative integer, `padStart`, and `slice(-k)`.
- `inventory_model.dfy`: the item schema (`server/src/models/Inventory.ts`).
  - Its enumerations and required fields.
  - `min: 0` on the quantity.
  - The two unique indexes, on part number and on barcode.
  - The pre-save hook that writes the barcode `"SHV"` + the last six clock digits + three zero-padded random digits.
  - `save()` in two orders. `SaveAsWritten` validates before the hook, as Mongoose runs it. `Save` runs the hook first, which is the corrected order (see "## Findings").
- `inventory_routes.dfy`: the item routes (`server/src/routes/inventory.ts`).
  - The class `Inventory` holds the collection as a map from document id to document.
  - Its methods `AddItem`, `UpdateItem` and `Checkout` are each proved against a specification function: `AddOutcome`, `UpdateOutcome` and `RunCheckout`.
  - Every route saves through the corrected `Save`. `AddOutcomeAsWritten` is the add route with the save as written, and it never stores an item.
  - The lemmas about those functions state what the routes promise.
- `auth_routes.dfy`: the account routes (`server/src/routes/auth.ts`).
  - The class `AccountStore` holds the accounts, and its methods `Register` and `Approve` change them.
  - The login decision chain and the pending-approvals query are functions over the stored accounts.
- `client_types.dfy`: the client's item and registration shapes.
- `checkout_page.dfy`: the checkout page handlers, the checkout payload and the search filter.
- `dashboard.dfy`: `calculateStats`. Its category loop is a method with a loop invariant.
- `register_page.dfy`: the submit validation chain and the mapping from an error status to a message.
- `client_server.dfy`: lemmas about what happens when the client talks to the server where the two disagree.

Time, randomness and outside libraries appear as parameters:

- `Date.now()` and `Math.random()` together form one `SaveStamp` per save. A checkout takes one stamp per entry.
- `toLocaleDateString` is the `formatDate` parameter.
- `isEmail` is a parameter.
- bcrypt's `comparePassword` is a parameter.
- The `JWT_SECRET` environment variable is an `Option<string>`.
- A token is the claim set that would be signed.

Three behaviours that a reader of the routes might not expect are modelled as the code has them:

- An update copies every supplied key except `partNumber` and `barcode`. That includes `lastUpdated`, and not only the four keys that have validators.
- No route refreshes `lastUpdated`. It gets its default only when a document is created.
- The pre-save hook writes a new barcode on every save whose barcode was not changed. So the saves made by update and by checkout also replace the item's barcode, and barcodes are not stable identifiers.

The one place where the model departs from the code is the order of validation and the barcode hook inside `save()`. As written, that order makes every add fail (see "## Findings"). The routes use the corrected order, and `InventoryRoutes.AddOutcomeAsWritten` keeps the add route as written.

## Model

| member | source | states |
|---|---|---|
| JsText.TrimStart | client/src/pages/Register.tsx:83 | the result is a suffix of the input, everything removed is whitespace, and the result does not start with whitespace |
| JsText.TrimEnd | client/src/pages/Register.tsx:83 | the result is a prefix of the input, everything removed is whitespace, and the result does not end with whitespace |
| JsText.Trim | client/src/pages/Register.tsx:83 | `trim` is never longer than its input, and a non-empty result neither starts nor ends with whitespace |
| JsText.TrimIsInfix | client/src/pages/Register.tsx:83 | `trim` gives the infix of the string that starts at some position i, with only whitespace before i and after the kept part |
| JsText.TrimEmptyIff | client/src/pages/Register.tsx:83-92 | a string trims to the empty string exactly when it is all whitespace |
| JsText.TrimKeepsVisibleStart | client/src/pages/Register.tsx:95 | a string whose first character is not whitespace never trims to the empty string |
| JsText.ToLower | client/src/pages/Checkout.tsx:97-99 | lower-casing keeps the length, turns every ASCII capital into its small letter (code point + 32), leaves no ASCII capital, and keeps every character that is not one |
| JsText.Includes | client/src/pages/Checkout.tsx:97-99 | a term that is a prefix of the string is included, and an included term is never longer than the string; IncludesIffOccurs characterises it fully |
| JsText.IncludesIffOccurs | client/src/pages/Checkout.tsx:97-99 | `includes` holds exactly when the term occurs at some position of the string |
| JsText.IncludesFindsPosition | client/src/pages/Checkout.tsx:97-99 | when `includes` holds, there is a position where the term occurs |
| JsText.OccurrenceIsIncluded | client/src/pages/Checkout.tsx:97-99 | an occurrence at any position makes `includes` hold |
| JsText.IncludesEmpty | client/src/pages/Checkout.tsx:97 | the empty term is included in every string |
| JsText.Decimal | server/src/models/Inventory.ts:55 | `toString` of a non-negative integer is a non-empty string of digits |
| JsText.DecimalRoundTrip | server/src/models/Inventory.ts:55 | reading the decimal rendering back gives the number |
| JsText.DecimalLengthAtMost | server/src/models/Inventory.ts:56 | a number below 10^k has at most k digits |
| JsText.DecimalLengthAbove | server/src/models/Inventory.ts:55 | a number at least 10^k has more than k digits |
| JsText.PadStart | server/src/models/Inventory.ts:56 | `padStart` gives length max(|s|, width), ends with `s`, and is padded with the pad character in front |
| JsText.LeadingZerosValue | server/src/models/Inventory.ts:56 | zero padding does not change the value of a digit string |
| JsText.SliceLast | server/src/models/Inventory.ts:57 | `slice(-k)` gives the last k characters, or the whole string when it is shorter or when k is 0 (`-0` is `0`) |
| InventoryModel.ParseCategory | server/src/models/Inventory.ts:23-27 | a string is accepted as a category exactly when it is one of RPM, Utility Panel, Handheld, Other |
| InventoryModel.ParseWorkingGroup | server/src/models/Inventory.ts:28-32 | a string is accepted as a working group exactly when it is Smart Click or F.E. |
| InventoryModel.SchemaValid | server/src/models/Inventory.ts:13-46 | definition: the per-document constraints, which are the required strings present and `min: 0` on the quantity; the enumerations hold by the types Category and WorkingGroup |
| InventoryModel.UniqueKeys | server/src/models/Inventory.ts:18-42 | definition: no two documents share a part number or a barcode |
| InventoryModel.StoreValid | server/src/models/Inventory.ts:13-49 | definition: every stored document meets the schema and both indexes are unique; Save and WriteKeepsStoreValid preserve it |
| InventoryModel.Barcode | server/src/models/Inventory.ts:55-57 | the generated barcode starts with "SHV" and has more characters after it; BarcodeRoundTrip and BarcodeLengthBounds fix the rest |
| InventoryModel.RandomSuffixDigits | server/src/models/Inventory.ts:56 | the random part is exactly three digits and reads back as the draw in [0, 999] |
| InventoryModel.BarcodeRoundTrip | server/src/models/Inventory.ts:55-57 | a generated barcode splits back into "SHV", the last six clock digits and the random draw |
| InventoryModel.BarcodeLength | server/src/models/Inventory.ts:55-57 | a clock reading of six or more digits gives a 12-character barcode |
| InventoryModel.BarcodeLengthBounds | server/src/models/Inventory.ts:57 | every generated barcode has 7 to 12 characters, so it is never empty |
| InventoryModel.PreSave | server/src/models/Inventory.ts:52-60 | the hook changes only the barcode; it leaves the document alone when the barcode was modified and otherwise writes the generated barcode |
| InventoryModel.HookStampsBarcode | server/src/models/Inventory.ts:53-57 | after the hook runs on an unmodified barcode, the barcode reads back as that save's clock digits and draw |
| InventoryModel.Save | server/src/models/Inventory.ts:13-60 | the corrected save, hook first, which every route uses: it succeeds exactly when the hooked document meets the schema and takes neither unique key of another document; it then stores exactly that document, a schema failure is reported as such, and a valid collection stays valid |
| InventoryModel.WriteKeepsStoreValid | server/src/models/Inventory.ts:18-42 | writing a schema-valid document whose keys are free keeps every document valid and both keys unique |
| InventoryModel.SaveAsWritten | server/src/models/Inventory.ts:13-60 | with validation before the hook, a save fails the schema exactly when the document before the hook breaks it |
| InventoryModel.NewDocumentRejectedAsWritten | server/src/models/Inventory.ts:38-42 | with validation before the hook, a document created without a barcode is always rejected by `required` |
| InventoryModel.NewDocumentSavedWithHookFirst | server/src/models/Inventory.ts:52-58 | with the hook first, a new document with valid fields and free keys is stored with the generated barcode |
| InventoryModel.SaveOrdersAgreeOnStoredDocuments | server/src/models/Inventory.ts:13-60 | for a document that already has a barcode, the two orders give the same result |
| InventoryRoutes.Status | server/src/routes/inventory.ts:119-128 | only the two not-found errors answer 404, and a rejected save carries no status of its own |
| InventoryRoutes.AddRequestValid | server/src/routes/inventory.ts:24-30 | definition: the add validators, which are a non-blank trimmed name and part number, the two enumerations, and an integer quantity of at least 0 |
| InventoryRoutes.NewDocument | server/src/routes/inventory.ts:46-52 | the document built from a valid body has no barcode, so it fails the schema as it stands, and any non-empty barcode would make it valid |
| InventoryRoutes.KeysFreeForNewId | server/src/routes/inventory.ts:40-54 | under a fresh id, the unique indexes ask only that the part number and the barcode are both unused |
| InventoryRoutes.AddOutcome | server/src/routes/inventory.ts:21-60 | the add route with the corrected hook-first save: an invalid body and a part number already in use both fail without changing anything; a success inserts exactly one document under the new id, built from the sanitised body and carrying the generated barcode; a success happens exactly when the keys are free |
| InventoryRoutes.AddFailsOnlyOnBarcodeCollision | server/src/routes/inventory.ts:40-54 | a valid body with an unused part number is stored unless the generated barcode is already in use, and then the error is a duplicate key |
| InventoryRoutes.AddOutcomeAsWritten | server/src/routes/inventory.ts:21-60 | the add route with the save as written: an invalid body and a used part number fail as in AddOutcome, and the collection never changes |
| InventoryRoutes.AddRejectedAsWritten | server/src/routes/inventory.ts:46-54 | as written, every add fails; a valid body with an unused part number fails the schema for its missing barcode, and so does every request that AddOutcome stores |
| InventoryRoutes.UpdateValid | server/src/routes/inventory.ts:67-70 | definition: the optional update validators; keys without a validator always pass |
| InventoryRoutes.Assign | server/src/routes/inventory.ts:87 | definition: `item[key] = updates[key]` for one key; AssignField states its effect |
| InventoryRoutes.ApplyUpdates | server/src/routes/inventory.ts:84-89 | the update loop never changes the part number or the barcode, and it keeps a schema-valid document valid |
| InventoryRoutes.AssignField | server/src/routes/inventory.ts:87 | assigning one key changes that key to the supplied value and no other key |
| InventoryRoutes.ApplyUpdatesFields | server/src/routes/inventory.ts:84-89 | after the loop, every key holds the value last supplied for it, except partNumber and barcode, which keep their old values |
| InventoryRoutes.UpdateOutcome | server/src/routes/inventory.ts:63-97 | invalid fields fail, a missing id fails with ItemNotFound, and a failure changes nothing; a success replaces only that document, whose fields are the updated ones and whose barcode is regenerated by the hook |
| InventoryRoutes.CheckoutStep | server/src/routes/inventory.ts:118-138 | a step fails exactly on an unknown id, short stock, or a save the schema or a unique index refuses for the decremented document with its new barcode, and succeeds otherwise; on success it lowers exactly that item by the requested quantity, changes no other item, keeps the collection valid, and reports the item name, the request and the remaining stock |
| InventoryRoutes.StepFailsOnlyOnBarcodeCollision | server/src/routes/inventory.ts:124-132 | in a valid collection, a step with enough stock succeeds exactly when its new barcode belongs to no other item, and otherwise fails with a duplicate key |
| InventoryRoutes.WalkEntries | server/src/routes/inventory.ts:118-139 | definition: the checkout loop, one save stamp per entry, stopping at the first failing step; WalkShape, WalkLedger, WalkLines and WalkFailure state what it does |
| InventoryRoutes.RunCheckout | server/src/routes/inventory.ts:103-144 | definition: the validators, then the loop; CheckoutSucceeds, CheckoutFailsPartway and CheckoutLowersStock state what it does |
| InventoryRoutes.WalkUnfolds | server/src/routes/inventory.ts:118-139 | the loop resumed at entry i takes one step and then goes on with the rest, stops at a failing step, and stops with nothing more past the last entry |
| InventoryRoutes.WalkShape | server/src/routes/inventory.ts:118-139 | the loop commits a prefix of the entries, ends without error exactly when it commits all of them, and keeps the set of items |
| InventoryRoutes.WalkStock | server/src/routes/inventory.ts:118-139 | the loop commits a prefix of the entries, ends without error exactly when it commits all of them, lowers each item by the total that prefix requested of it, never below 0, and changes only stock and barcode |
| InventoryRoutes.WalkKeepsUnnamed | server/src/routes/inventory.ts:118-139 | an item that no committed entry names is never saved, so it keeps its whole document, barcode included |
| InventoryRoutes.WalkLedger | server/src/routes/inventory.ts:118-139 | the loop commits a prefix of the entries, ends without error exactly when it commits all of them, and lowers each item by the total that prefix requested of it, never below 0; only stock and barcode change, and an item no committed entry names keeps its whole document |
| InventoryRoutes.WalkLines | server/src/routes/inventory.ts:134-138 | result k names entry k's item and repeats its quantity; its remaining stock counts entries 0..k, so a repeated id sees the earlier decrements |
| InventoryRoutes.WalkFailure | server/src/routes/inventory.ts:119-132 | a loop that stops early stops at the first uncommitted entry: its id is unknown, its stock is short, or the save with that entry's stamp is refused by the schema or a unique index in the collection at that moment |
| InventoryRoutes.WalkRegeneratesBarcode | server/src/routes/inventory.ts:131-132 | the item of the last committed entry carries the barcode generated at that entry's save |
| InventoryRoutes.RequestedCovers | server/src/routes/inventory.ts:106 | with every quantity at least 1, an item's total requested quantity is at least any single entry's quantity for it |
| InventoryRoutes.CheckoutSucceeds | server/src/routes/inventory.ts:115-144 | a successful checkout answers one line per entry, in input order, and lowers every item by exactly the total requested of it |
| InventoryRoutes.CheckoutFailsPartway | server/src/routes/inventory.ts:103-139 | a failed checkout either was refused by the validators and changed nothing, or kept the first n entries committed (no rollback) and failed at entry n for one of the step's failure reasons; an item none of those n entries names, such as one named only by entry n or later, is unchanged |
| InventoryRoutes.CheckoutLowersStock | server/src/routes/inventory.ts:124-131 | stock never rises and never turns negative, and every item named by a committed entry ends strictly lower |
| InventoryRoutes.PartialFailureExample | server/src/routes/inventory.ts:118-132 | taking 2 of 5 Widgets and then 999 of 10 Gadgets fails on Gadget, and Widget stays at 3 |
| InventoryRoutes.ExportRow | server/src/routes/inventory.ts:158-164 | each row has the seven columns in header order |
| InventoryRoutes.ExportRows | server/src/routes/inventory.ts:157-165 | the export gives one row per item, in listing order |
| InventoryRoutes.ExportRowRoundTrip | server/src/routes/inventory.ts:157-165 | every field of an item can be read back from its row; the date reads back as formatted |
| InventoryRoutes.Inventory.AddItem | server/src/routes/inventory.ts:31-55 | the add route, with the corrected hook-first save, changes the collection and answers as AddOutcome says; it keeps the collection valid and advances the id counter only on success |
| InventoryRoutes.Inventory.UpdateItem | server/src/routes/inventory.ts:79-92 | the update loop, whose invariant is the prefix fold of ApplyUpdates, followed by the save, gives UpdateOutcome and keeps the collection valid |
| InventoryRoutes.Inventory.Checkout | server/src/routes/inventory.ts:115-144 | the checkout loop leaves the collection and the answer that RunCheckout gives, including the entries committed before a failure, and keeps the collection valid |
| AuthRoutes.AuthStatus | server/src/routes/auth.ts:23-92 | validation errors and an existing user answer 400, and only bad credentials answer 401 |
| AuthRoutes.RegisterViolations | server/src/routes/auth.ts:13-24 | each register field is reported exactly when its validator fails |
| AuthRoutes.FailedFields | server/src/routes/auth.ts:13-24 | the error list names each field exactly when its validator failed |
| AuthRoutes.FindByEmail | server/src/routes/auth.ts:29 | the lookup finds the first account with that email, and finds nothing exactly when no account has it |
| AuthRoutes.RegisterOutcome | server/src/routes/auth.ts:19-59 | invalid fields fail; an existing email fails with UserExists and creates nothing; valid fields with an unused email always succeed, appending exactly one account, an approved admin when there were none and an unapproved user otherwise, and `isAdmin` is "first account" |
| AuthRoutes.RegisterKeepsAccountsValid | server/src/routes/auth.ts:29-46 | registration keeps emails distinct and keeps the first account as the only admin |
| AuthRoutes.AppendKeepsAccountsValid | server/src/routes/auth.ts:29-46 | appending an account with an unused email, which is an approved admin exactly when it is the first, keeps emails distinct and the first account the only admin |
| AuthRoutes.LaterRegistrationsArePending | server/src/routes/auth.ts:35-46 | once any account exists, a new registration is an unapproved user and the reply says it is not the admin |
| AuthRoutes.SigningSecret | server/src/routes/auth.ts:98 | an unset or empty `JWT_SECRET` falls back to the default secret |
| AuthRoutes.LoginViolations | server/src/routes/auth.ts:65-68 | the email and password fields are reported exactly when their validators fail |
| AuthRoutes.Login | server/src/routes/auth.ts:63-116 | an unknown email or a wrong password gives 401, and a right password on an unapproved account gives 403; a valid body, a known email, the right password and approval always succeed; a token is issued only after all checks pass, and it names the account with a 24-hour lifetime |
| AuthRoutes.UnknownEmailLooksLikeWrongPassword | server/src/routes/auth.ts:79-88 | an unknown email and a wrong password give the identical answer |
| AuthRoutes.UnapprovedGetsNoToken | server/src/routes/auth.ts:90-93 | an unapproved account never receives a token, and with the right password it gets PendingApproval |
| AuthRoutes.PendingApprovals | server/src/routes/auth.ts:121 | the list holds exactly the unapproved accounts, without passwords, in storage order |
| AuthRoutes.ApproveOutcome | server/src/routes/auth.ts:131-139 | an unknown id fails with UserNotFound; otherwise only the target changes, and it ends approved |
| AuthRoutes.ApproveIdempotent | server/src/routes/auth.ts:136-137 | approving twice gives the same accounts and answer as approving once |
| AuthRoutes.ApproveRemovesFromPending | server/src/routes/auth.ts:121-137 | approval removes exactly the target from the pending list |
| AuthRoutes.ApprovedAccountLogsIn | server/src/routes/auth.ts:90-100 | after approval, the right password yields a token for that account |
| AuthRoutes.AccountStore.Register | server/src/routes/auth.ts:39-48 | the store is changed and answered as RegisterOutcome says, and keeps distinct emails and the single first admin |
| AuthRoutes.AccountStore.Approve | server/src/routes/auth.ts:131-137 | the store is changed and answered as ApproveOutcome says, and stays valid |
| CheckoutPage.AddItem | client/src/pages/Checkout.tsx:55-63 | an item that is already selected only sets the error; otherwise it is appended with quantity 1 and the search is cleared |
| CheckoutPage.ChangeQuantity | client/src/pages/Checkout.tsx:65-73 | only the matching rows change; they get min(q, stock), so they never exceed stock |
| CheckoutPage.RemoveItem | client/src/pages/Checkout.tsx:75-77 | the result keeps exactly the rows whose id differs |
| CheckoutPage.RemoveDistributes | client/src/pages/Checkout.tsx:76 | removal distributes over concatenation, so the kept rows stay in input order |
| CheckoutPage.RemoveAbsent | client/src/pages/Checkout.tsx:76 | removing an id that is not listed changes nothing |
| CheckoutPage.RemoveUndoesAdd | client/src/pages/Checkout.tsx:55-77 | removing an item right after adding it restores the list |
| CheckoutPage.HandlersKeepIdsDistinct | client/src/pages/Checkout.tsx:55-77 | add, change and remove keep the selected ids pairwise distinct |
| CheckoutPage.RemoveKeepsDistinct | client/src/pages/Checkout.tsx:75-77 | removal keeps the selected ids pairwise distinct |
| CheckoutPage.HandlersKeepWithinStock | client/src/pages/Checkout.tsx:55-77 | no handler makes a row ask for more than its stock, given that an item is added only while its stock is at least 1 |
| CheckoutPage.NoLowerBound | client/src/pages/Checkout.tsx:69 | a quantity of 0 or less is accepted as it is |
| CheckoutPage.CheckoutPayload | client/src/pages/Checkout.tsx:81-84 | the payload is (id, quantity) per row, same order and length |
| CheckoutPage.FilteredItems | client/src/pages/Checkout.tsx:95-100 | an item is kept exactly when it matches the lower-cased term |
| CheckoutPage.FilterDistributes | client/src/pages/Checkout.tsx:95-100 | filtering a concatenation is the concatenation of the filtered parts, so the kept items stay in input order with their multiplicity |
| CheckoutPage.FilterSingle | client/src/pages/Checkout.tsx:95-100 | a single item is kept exactly when it matches |
| CheckoutPage.Matches | client/src/pages/Checkout.tsx:96-99 | definition: the filter's test on one item; MatchesIffOccurs states it as an occurrence of the term |
| CheckoutPage.MatchesIffOccurs | client/src/pages/Checkout.tsx:95-100 | an item matches exactly when the lower-cased term occurs in its lower-cased name, part number or barcode |
| CheckoutPage.EmptySearchKeepsAll | client/src/pages/Checkout.tsx:95-100 | an empty term keeps every item, in order |
| Dashboard.LowStockItems | client/src/pages/Dashboard.tsx:46 | the low-stock list holds each item below 5 as often as the item list does, and no other item, so it is no longer than the item list |
| Dashboard.LowStockCount | client/src/pages/Dashboard.tsx:46 | the low-stock list is as long as the number of positions whose item is below 5, counted independently from the front |
| Dashboard.CountCategory | client/src/pages/Dashboard.tsx:55-57 | a category count is at most the item count, and is 0 exactly when no item has that category |
| Dashboard.Counters | client/src/pages/Dashboard.tsx:47-57 | definition: the counter table after the `forEach` over the items; CountersCount states what it holds |
| Dashboard.CountersCount | client/src/pages/Dashboard.tsx:47-57 | each of the four categories counts its items; any other category seen becomes a NaN counter, and no other key appears |
| Dashboard.CalculateStats | client/src/pages/Dashboard.tsx:43-60 | totalItems is the item count, lowStock is the number of items below 5, and the counters loop, whose invariant is the prefix counters, gives Counters(items) |
| Dashboard.CategoriesSumToTotal | client/src/pages/Dashboard.tsx:47-57 | when every item has one of the four categories, the four counts add up to the item count |
| RegisterPage.EmailPatternIff | client/src/pages/Register.tsx:64-68 | the email pattern accepts exactly the strings with no whitespace and a single `@`, not first, followed later by a dot with characters on both sides |
| RegisterPage.EmailPatternMatches | client/src/pages/Register.tsx:64 | definition: the regular expression as a split into three `[^\s@]+` runs around `@` and a dot; EmailPatternIff restates it without the split |
| RegisterPage.MatchingEmailIsNotBlank | client/src/pages/Register.tsx:95-98 | an address that matches the pattern is never blank after trimming |
| RegisterPage.HandleSubmit | client/src/pages/Register.tsx:57-109 | the checks run in source order and each message is shown exactly when its check is the first to fail; the form is sent, without the confirmation, exactly when all seven pass |
| RegisterPage.FirstFailure | client/src/pages/Register.tsx:63-104 | over the seven checks' verdicts, a message is chosen exactly when its check is the first to fail, and the data are sent exactly when none fails |
| RegisterPage.LastChecksUnreachable | client/src/pages/Register.tsx:94-104 | the blank-email and empty-password messages can never be shown, so the form is sent exactly when the first five checks pass |
| RegisterPage.SubmitErrorMessage | client/src/pages/Register.tsx:111-119 | 409 shows the duplicate-email message, 400 the server message or a default, and anything else the generic message |
| ClientServer.ServerRegisterBody | server/src/routes/auth.ts:26 | the server finds email, password and working group in the client's body, but no `name` |
| ClientServer.ClientRegistrationRejected | server/src/routes/auth.ts:13-24 | every registration the form sends is refused with 400, names `name` among the failing fields, and creates no account |
| ClientServer.CustomsRefused | server/src/routes/auth.ts:17 | the client offers the 'Customs' working group, and the server's validator refuses it |
| ClientServer.PasswordPolicyGap | client/src/pages/Register.tsx:71-74 | passwords of 6 or 7 characters pass the server's rule but are refused by the form |
| ClientServer.DuplicateEmailShownAsInvalidData | client/src/pages/Register.tsx:113-116 | the server never answers 409, so the form never shows its duplicate-email message for a duplicate |
| ClientServer.ServerEntries | client/src/pages/Checkout.tsx:81-86 | the server reads one checkout entry per payload row, in order |
| ClientServer.NonPositiveRowRefused | server/src/routes/inventory.ts:106 | a selection with a row of quantity 0 or less is refused as a whole, before any stock changes |

## Left out

- HTTP and Express wiring are not modelled: routing, JSON bodies, the `auth`/`adminAuth` middleware, the item listing route, and the error handler's translation of errors into responses. They are I/O and plumbing.
- InventoryRoutes.Status: a `save()` that Mongoose rejects carries no status from the route. The status the error handler gives it is not part of this model.
- The client updates with PUT (`client/src/services/api.ts:57`), but the server route is PATCH. No PUT route exists, so a client update never reaches the modelled update. This is HTTP routing, so it is left out.
- express-validator internals are not modelled. `isEmail` is a parameter. `normalizeEmail` is left out, so emails are stored and looked up as sent. `isMongoId`, `isArray` and the cast error for a malformed id are also left out: ids are naturals, and the checkout body is always a list.
- InventoryRoutes.UpdateOutcome: body keys that are not schema paths, and the casting of a `lastUpdated` value to a date, are not modelled. An update's keys are the seven schema fields.
- Mongoose's `timestamps` fields (`createdAt`, `updatedAt`) are not modelled. They are written by the driver and read by nothing in the core.
- bcrypt and JWT are parameters. The password hashing of the User model is not part of this model. The token is the claim set it would sign: subject, secret and a 24-hour lifetime.
- XLSX workbook and buffer writing are left out. Export stops at the rows, and `toLocaleDateString` is a parameter.
- Concurrency is not modelled: two checkouts that interleave (overselling), and the count-then-insert race of registration. Each request is modelled as running alone.
- InventoryRoutes.AddOutcome: uses the corrected hook-first save, not the order the code runs. As written, every add fails; that case is InventoryRoutes.AddOutcomeAsWritten (see "## Findings").
- InventoryRoutes.Inventory.AddItem: follows AddOutcome, so it uses the corrected hook-first save as well.
- The client's `useAuth().register` (`client/src/contexts/AuthContext.tsx`) is not part of this model. ClientServer.ClientRegistrationRejected assumes it forwards the form's data to `authService.register` unchanged.
- `user.save()` in register and approve is assumed never to fail. The User model's own validation and its unique index on email are not part of this model.
- JsText.ToLower: lowers ASCII letters only. Full Unicode case mapping is not modelled.
- `length` counts UTF-16 code units in JavaScript and characters here. The two differ only outside the Basic Multilingual Plane.
- `parseInt` turning an empty quantity field into `NaN` is not modelled. The client's quantity is an integer.
- The React rendering, the fetch calls and state plumbing of the pages are not modelled. The pages' success and error notices outside the modelled handlers are also left out.

## Findings

| source | as written | input that shows it | evidently intended | confidence | as-written member | corrected member |
|---|---|---|---|---|---|---|
| server/src/models/Inventory.ts:38-58 | `barcode` is `required`, and the barcode is generated in a `pre('save')` hook. Mongoose's validation is itself a `pre('save')` hook that runs before the application's hooks, so a new item without a barcode fails `required` before its barcode exists. Adding an item can never succeed. | any valid POST /inventory body, e.g. itemName "Widget", partNumber "PN-1", category "RPM", workingGroup "F.E.", quantity 3 | generate the barcode before validation (a `pre('validate')` hook), so a new item is stored with its generated barcode | not executed; relies on Mongoose's documented order of validation and save hooks | InventoryModel.NewDocumentRejectedAsWritten | InventoryModel.NewDocumentSavedWithHookFirst |
