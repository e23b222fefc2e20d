# Admin site product core, modelled in Dafny

The admin site keeps a catalogue of records and their images in a document store and an image service. This project models the parts of it that compute something:

- **Creation route.** The route that creates a product:
  - it validates the JSON body;
  - it maps the category to a SKU prefix;
  - it scans counters 1, 2, 3, … for the first SKU no stored product holds;
  - it writes the record through the product schema.
- **Listing route.** The route that lists products.
- **Product schema.** Its required paths, defaults and unique `sku`, kept as an invariant of the collection.
- **Migration script.** It turns legacy image URLs into image-service public ids.
- **Product form.** Its state: form data with defaults, the attribute rows and their fold into a record, the edit handlers, and the create-or-update request.
- **Image picker.** Its state: the upload loop that stops at the first failure, and removal of an id.
- **Authentication callbacks.** The administrator allowlist at sign-in and the post-login redirect choice.

State that the source changes in place is modelled in classes with `modifies` clauses:

- `ProductModel.ProductCollection` is the store;
- `MigrateImages.LegacyStore` is the collection the script rewrites;
- `ProductForm.Form` is the form component;
- `ImageUpload.Uploader` is the picker component.

Loops in the source are loops here:

- the SKU scan;
- the id collection and per-product loop of the migration;
- the upload loop with its `break`.

The route's ten validation `if`s are straight-line code. They are modelled as straight-line methods that append to the error list.

Pure code is modelled as functions with lemmas.

The modules are:

| file | module |
|---|---|
| `wrappers.dfy` | `Option` and `Result` |
| `strings.dfy` | the JavaScript string operations used: `split`, `join`, `String(n)`, `padStart`, `startsWith`, `indexOf` |
| `js_values.dfy` | JSON values, truthiness, property lookup, object spread, `Object.entries`, `String(v)` |
| `product_model.dfy` | the schema cast and the collection |
| `products_route.dfy` | POST and GET |
| `migrate_images.dfy` | public-id extraction and the migration loop |
| `product_form.dfy` | the product form |
| `image_upload.dfy` | the image picker |
| `auth.dfy` | the two callbacks |

Everything outside the program is a parameter:

- **Store identifier.** `newId` is the `_id` the database driver gives a new document.
- **Uploads.** `outcomes` holds what each upload request returned.
- **Number parsing.** `parsed` is the result of `parseFloat`.
- **Allowlist.** `env` is the allowlist variable.
- **URL parsing.** `origin` is the URL parser's origin.

## Model

| member | source | states |
|---|---|---|
| `Strings.IndexOf` | scripts/migrateImages.ts:14 | the position found holds the element and no earlier position does |
| `Strings.IndexOfUnique` | scripts/migrateImages.ts:14 | any position holding the element with no earlier occurrence is the one `indexOf` finds |
| `Strings.Split` | scripts/migrateImages.ts:13 | a split has at least one piece and no piece holds the separator |
| `Strings.Join` | scripts/migrateImages.ts:20-23 | `join(sep)`: the pieces in order with the separator between each two; no pieces give the empty string |
| `Strings.JoinSplit` | auth.ts:18 | joining the pieces of a split with the separator gives the original string back |
| `Strings.SplitAround` | scripts/migrateImages.ts:13 | splitting `a + sep + b` is splitting `a`, then `b` |
| `Strings.SplitJoin` | auth.ts:18 | splitting a join of separator-free pieces gives the pieces back |
| `Strings.NatToString` | app/api/admin/products/route.ts:60 | `String(counter)` is a non-empty run of digits with no leading zero |
| `Strings.ParseNatToString` | app/api/admin/products/route.ts:60 | reading the decimal form of `n` back gives `n` |
| `Strings.ParseLeadingZeros` | app/api/admin/products/route.ts:60 | leading zeros do not change a numeral's value |
| `Strings.StartsWith` | auth.ts:28 | `s.startsWith(prefix)`: the prefix is no longer than `s` and is its first characters |
| `Strings.PadStart` | app/api/admin/products/route.ts:60 | the padded string has the requested width (or the original's if longer), ends in the original and is filled before it |
| `JsValues.StringsOf` | app/api/admin/products/route.ts:31 | the strings of an array of strings, one per element and in order |
| `JsValues.StringArray` | models/product.ts:26 | an array built from strings is an array of strings holding exactly them |
| `JsValues.Truthy` | app/api/admin/products/route.ts:23-31 | falsy exactly for `undefined`, `null`, `false`, `0` and `""`; arrays and objects, empty ones included, are truthy |
| `JsValues.IsNullish` | app/api/admin/products/route.ts:20 | `undefined` or `null`, the values destructuring throws on |
| `JsValues.IsStringArray` | app/api/admin/products/route.ts:31 | `Array.isArray(v)` and no element whose `typeof` is not `string` |
| `JsValues.Get` | app/api/admin/products/route.ts:20 | `v[key]` reads an object's property and `undefined` on any other value |
| `JsValues.Lookup` | app/api/admin/products/route.ts:20 | a defined property value is one of the object's own entries for that name |
| `JsValues.LookupFirst` | app/api/admin/products/route.ts:20 | an absent name reads `undefined`; a present name reads the value of its first entry |
| `JsValues.Assign` | app/admin/components/ProductForm.tsx:43 | `{ ...prev, [key]: value }` reads `value` at `key` and the old value at every other name |
| `JsValues.AssignKeys` | app/admin/components/ProductForm.tsx:43 | an assignment adds its property name and no other |
| `JsValues.LastBinding` | app/admin/components/ProductForm.tsx:22 | a spread entry for a name exists exactly when the name is among the spread object's names |
| `JsValues.SpreadLookup` | app/admin/components/ProductForm.tsx:13-23 | after `{ ...base, ...obj }` a name holds `obj`'s last value for it, else `base`'s |
| `JsValues.SpreadKeys` | app/admin/components/ProductForm.tsx:13-23 | a spread has the base's names and the spread object's names, and no others |
| `JsValues.Spread` | app/admin/components/ProductForm.tsx:13-23 | `{ ...base, ...entries }` assigns the entries to the base one after the other |
| `JsValues.Entries` | app/admin/components/ProductForm.tsx:25 | `Object.entries` of an object is its property list; entry `i` of an array is `String(i)` with the element, of a string `String(i)` with the one-character string; any other value has none |
| `JsValues.NumberToString` | app/admin/components/ProductForm.tsx:25 | `String(n)` of an integer: a minus sign before the digits of a negative number |
| `JsValues.JsString` | app/admin/components/ProductForm.tsx:25 | `String(v)`: the literal names of `undefined`, `null` and the booleans, a number's digits, a string itself, an array's elements joined with `,` (nullish ones empty), and `[object Object]` for an object |
| `ProductModel.RequiredString` | models/product.ts:20-23 | a required string path accepts exactly a non-empty string, unchanged |
| `ProductModel.RequiredNumber` | models/product.ts:24-25 | a required number path accepts a number, or its default only when the path is undefined |
| `ProductModel.FeaturedFlag` | models/product.ts:28 | `featured` accepts a boolean and defaults to false only when undefined |
| `ProductModel.PublicIdList` | models/product.ts:26 | `cloudinaryPublicIds` accepts exactly an array of strings, whose strings become the stored list |
| `ProductModel.AttributesValue` | models/product.ts:27 | `attributes` accepts any value but undefined and null, unchanged |
| `ProductModel.ErrorMessage` | app/api/admin/products/route.ts:70-71 | the `error.message` the catch returns for a refused document: a missing required path, a failed cast, or a duplicate key, each naming its path |
| `ProductModel.Cast` | models/product.ts:18-29 | a cast document satisfies the schema, every stored value is the document's own, `stock` is 0 and `featured` is false when absent, and a document missing a required path is refused |
| `ProductModel.SkuSet` | models/product.ts:23 | the set of SKUs holds every product's SKU and nothing else, and is no larger than the list |
| `ProductModel.ProductCollection.constructor` | models/product.ts:36 | an empty collection satisfies the store invariant (unique SKUs and ids, schema-valid records) |
| `ProductModel.ProductCollection.FindOneBySku` | app/api/admin/products/route.ts:62 | `findOne({ sku })` finds a stored product exactly when one holds that SKU |
| `ProductModel.ProductCollection.FindAll` | app/api/admin/products/route.ts:79 | `find({})` returns every stored product, as the stored sequence |
| `ProductModel.ProductCollection.Create` | models/product.ts:18-34 | `create` keeps the invariant: a failed cast, a taken SKU or a taken id refuses the document and leaves the store as it was; otherwise the cast record is appended |
| `ProductsRoute.Status` | app/api/admin/products/route.ts:42-80 | the status each answer carries: 201 for a created record, 400 for a validation failure or an unknown category, 500 for the catch, 200 for a listing |
| `ProductsRoute.Destructure` | app/api/admin/products/route.ts:20 | the seven names the handler takes from the body, each read as `body[name]` |
| `ProductsRoute.DestructureFailure` | app/api/admin/products/route.ts:20 | the TypeError message destructuring a `null` or `undefined` body throws, which the catch at lines 70-71 returns |
| `ProductsRoute.Message` | app/api/admin/products/route.ts:23-39 | each check's error text, exactly as the handler pushes it |
| `ProductsRoute.Fails` | app/api/admin/products/route.ts:23-39 | each check fails under its own `if` condition: a falsy value for the five truthiness tests, `undefined` for price and stock, and a wrong type for the three type tests |
| `ProductsRoute.Acceptable` | app/api/admin/products/route.ts:23-39 | the body passes validation: truthy name, description, category and attributes, numeric price and stock, and an array of strings for the ids |
| `ProductsRoute.CheckAt` | app/api/admin/products/route.ts:23-39 | each of the ten checks sits at its own position in the handler |
| `ProductsRoute.CheckAtOrder` | app/api/admin/products/route.ts:23-39 | every check runs at exactly one of the ten positions |
| `ProductsRoute.FailedInExactly` | app/api/admin/products/route.ts:23-39 | a run of checks reports exactly its failing checks, each once, in handler order |
| `ProductsRoute.FailedInSound` | app/api/admin/products/route.ts:23-39 | every check a run reports lies in the run and fails |
| `ProductsRoute.FailedInOrdered` | app/api/admin/products/route.ts:23-39 | a run reports its checks in handler order |
| `ProductsRoute.FailedInComplete` | app/api/admin/products/route.ts:23-39 | a run reports every failing check in it |
| `ProductsRoute.FailedInSplit` | app/api/admin/products/route.ts:23-39 | running two adjacent runs of checks one after the other reports the failures of their union |
| `ProductsRoute.AcceptableNoFailure` | app/api/admin/products/route.ts:23-41 | a submission is acceptable exactly when none of the ten checks fails on it |
| `ProductsRoute.FailedChecksExactly` | app/api/admin/products/route.ts:23-41 | a check is reported exactly when it fails, in handler order, and no error is reported exactly when the submission is acceptable (an empty id array passes) |
| `ProductsRoute.MessagesOf` | app/api/admin/products/route.ts:41-42 | the 400 response's `errors` has one message per failing check, in order |
| `ProductsRoute.PresenceErrors` | app/api/admin/products/route.ts:21-29 | the seven presence `push`es report exactly the failing presence checks, in order |
| `ProductsRoute.PushTypeErrors` | app/api/admin/products/route.ts:31-39 | the three type checks append exactly their failures, in order, to the errors so far |
| `ProductsRoute.CollectErrors` | app/api/admin/products/route.ts:21-39 | validation collects exactly the failing checks, in handler order |
| `ProductsRoute.CategoryPrefix` | app/api/admin/products/route.ts:45-52 | `vinyl-cd` gives `VC`, `audio-equipment` gives `AE`, and no other category has a prefix |
| `ProductsRoute.FormatSku` | app/api/admin/products/route.ts:60-61 | the prefix followed by `String(counter)` padded to three digits with leading zeros |
| `ProductsRoute.SkuCounterRoundTrip` | app/api/admin/products/route.ts:59-61 | the counter can be read back from the SKU formatted from it |
| `ProductsRoute.FormatSkuInjective` | app/api/admin/products/route.ts:59-61 | different counters give different SKUs, including counters of 1000 and more |
| `ProductsRoute.CategoriesNeverShareSku` | app/api/admin/products/route.ts:45-61 | SKUs generated for two different categories never coincide, whatever the counters |
| `ProductsRoute.DecimalWidth` | app/api/admin/products/route.ts:60 | a counter has at most three digits exactly when it is below 1000 |
| `ProductsRoute.FormatSkuLength` | app/api/admin/products/route.ts:59-61 | counters below 1000 give prefix plus three digits; larger ones keep all their digits, untruncated |
| `ProductsRoute.LeastFreeCounterUnique` | app/api/admin/products/route.ts:54-66 | the least free counter is determined by the held SKUs |
| `ProductsRoute.ThirdVinylSku` | app/api/admin/products/route.ts:54-66 | for a `vinyl-cd` product with `VC001` and `VC002` held, the scan's answer is counter 3, SKU `VC003` |
| `ProductsRoute.HeldCounters` | app/api/admin/products/route.ts:58-66 | if counters 1..n are all held, at least n SKUs are stored, which bounds the scan |
| `ProductsRoute.AllocateSku` | app/api/admin/products/route.ts:54-66 | the scan terminates at the least free counter, whose SKU no stored product holds, with counter at most the number of products plus one |
| `ProductsRoute.NewDocument` | app/api/admin/products/route.ts:68 | `{ ...body, sku, cloudinaryPublicIds }`: the body with `sku` set to the allocated one and `cloudinaryPublicIds` assigned its own value |
| `ProductsRoute.NewDocumentGet` | app/api/admin/products/route.ts:68 | `{ ...body, sku, cloudinaryPublicIds }` reads the allocated SKU at `sku` and the body's value everywhere else |
| `ProductsRoute.NewDocumentFields` | app/api/admin/products/route.ts:68 | the created record has the allocated SKU whatever `sku` the body carried and the new id, and every other field from the body: name, description, category, price, ids and attributes as given, `stock` as given or 0, `featured` as given or false |
| `ProductsRoute.NewDocumentAccepted` | app/api/admin/products/route.ts:68 | a validated body with string text fields and an absent or boolean `featured` passes the schema once it carries a SKU |
| `ProductsRoute.AllocateAndCreate` | app/api/admin/products/route.ts:54-69 | the record is created with the least free SKU of the prefix, or the store is unchanged and the refusal is a cast failure or a taken id; a body the schema accepts is always created |
| `ProductsRoute.Post` | app/api/admin/products/route.ts:14-73 | POST answers 500 with the destructuring TypeError's message for a `null` body, 400 with the ordered messages when validation fails, 400 for an unknown category after validation passes, and creates a record carrying the least free SKU; any refusal leaves the store unchanged, and the store invariant is kept |
| `ProductsRoute.GetAll` | app/api/admin/products/route.ts:75-84 | GET answers 200 with every stored product |
| `MigrateImages.IsVersion` | scripts/migrateImages.ts:18 | `startsWith('v')` and `/^\d+$/` on the rest: `v` followed by one or more digits |
| `MigrateImages.BeforeDot` | scripts/migrateImages.ts:20-23 | `split('.')[0]` has no dot, is the whole string without one, and is the text before the first dot otherwise |
| `MigrateImages.PublicIdAfter` | scripts/migrateImages.ts:16-23 | the segments after `upload`, without a leading version segment, joined with `/` and cut at the first dot |
| `MigrateImages.ExtractPublicId` | scripts/migrateImages.ts:12-27 | the result is null exactly when no segment is `upload`, holds no dot, and is read from the segments after the `upload` segment that has no `upload` before it |
| `MigrateImages.FirstUploadCounts` | scripts/migrateImages.ts:13-16 | only the first `upload` segment counts; later ones are part of the id's material |
| `MigrateImages.UploadLastIsEmpty` | scripts/migrateImages.ts:16-23 | a URL ending in `upload` gives the empty id, not null |
| `MigrateImages.NonVersionKept` | scripts/migrateImages.ts:18-23 | a segment that is not `v` followed by digits is kept in the id |
| `MigrateImages.NotVersions` | scripts/migrateImages.ts:18 | `v` alone and `v12a` are not version segments |
| `MigrateImages.UploadAt` | scripts/migrateImages.ts:13-16 | a URL whose segments hold `upload` after segments without one yields the id read from the segments after it |
| `MigrateImages.VersionSegment` | scripts/migrateImages.ts:18 | `v` followed by one or more digits is a version segment |
| `MigrateImages.SegmentsAround` | scripts/migrateImages.ts:13 | splitting a path around two separator-free segments yields those segments in place |
| `MigrateImages.VersionUrlSegments` | scripts/migrateImages.ts:13 | the segments of `p/upload/<version>/<file>` are `p`'s, `upload`, the version and `file`'s |
| `MigrateImages.FileNameCut` | scripts/migrateImages.ts:20 | a file name `<id>.<ext>` is cut back to `id` |
| `MigrateImages.ExtractAfterVersion` | scripts/migrateImages.ts:18-20 | after `upload` and a version segment, the id is the rest cut at its first dot |
| `MigrateImages.ExtractFromDeliveryUrl` | scripts/migrateImages.ts:12-27 | round trip: `p/upload/v<digits>/<id>.<ext>` gives back `id` when `p` has no `upload` segment and `id` no dot |
| `MigrateImages.PublicIdsOf` | scripts/migrateImages.ts:55-63 | the collected ids are non-empty, dot-free, and no more than the URLs |
| `MigrateImages.PublicIdsOfAppend` | scripts/migrateImages.ts:56-63 | collection follows URL order: collecting over two runs of URLs is collecting over each in turn |
| `MigrateImages.PublicIdsOfSound` | scripts/migrateImages.ts:56-59 | every collected id was extracted from one of the URLs |
| `MigrateImages.CollectPublicIds` | scripts/migrateImages.ts:55-63 | the inner loop collects exactly the non-empty extracted ids, in URL order |
| `MigrateImages.Selected` | scripts/migrateImages.ts:38-44 | the query: `imageUrls` present and not an empty array (a `null` one matches), and `cloudinaryPublicIds` missing or an empty array |
| `MigrateImages.Throws` | scripts/migrateImages.ts:54-56 | a selected product whose `imageUrls` is `null`, on which `for…of` throws |
| `MigrateImages.Reached` | scripts/migrateImages.ts:54-81 | the run gets through every product before the first that throws, and stops there; with none, through all of them |
| `MigrateImages.Migrated` | scripts/migrateImages.ts:65-76 | a product the run reaches changes exactly when it is selected, has an array of URLs and yields an id; then it gets the ids and loses `imageUrls`, keeping its identity |
| `MigrateImages.MigrationIdempotent` | scripts/migrateImages.ts:38-76 | a migrated product is no longer selected, so a second run changes nothing |
| `MigrateImages.LegacyStore.constructor` | scripts/migrateImages.ts:38-44 | the store holds the given products |
| `MigrateImages.LegacyStore.Migrate` | scripts/migrateImages.ts:54-81 | every product before the first selected one with a `null` URL list is replaced by its migrated form, in place; the catch ends the run there, so that product and the later ones are unchanged; no product is added or lost |
| `ProductForm.ProductProps` | app/admin/components/ProductForm.tsx:22 | the product's fields as `initialData` carries them when editing |
| `ProductForm.InitialFormData` | app/admin/components/ProductForm.tsx:13-23 | the defaults (category `vinyl-cd`, empty SKU, zero price and stock, no ids or attributes), each overridden by the product's field when editing |
| `ProductForm.SetsProperty` | app/admin/components/ProductForm.tsx:33-34 | `acc[key] = value` with a string creates a property unless the key is empty or `__proto__` |
| `ProductForm.FoldAttributes` | app/admin/components/ProductForm.tsx:32-37 | the `reduce` over the rows: each row whose key sets a property assigns its value, in row order |
| `ProductForm.LastValue` | app/admin/components/ProductForm.tsx:32-37 | a row value for a key exists exactly when some row has that key |
| `ProductForm.FoldAttributesLookup` | app/admin/components/ProductForm.tsx:32-37 | the folded record maps each key that sets a property to its last row's value; it has nothing for absent keys, the empty key, or `__proto__`, whose assignment goes to the prototype setter |
| `ProductForm.RowKeysSnoc` | app/admin/components/ProductForm.tsx:32-37 | a row adds its key to the row keys when the key sets a property |
| `ProductForm.FoldAttributesKeys` | app/admin/components/ProductForm.tsx:32-37 | the folded record's names are exactly the rows' keys other than the empty key and `__proto__` |
| `ProductForm.InitialAttributes` | app/admin/components/ProductForm.tsx:24-26 | a new product starts with no rows; an edited one has one row per property of an object, in order, with `String(value)`; an array or a string gives one row per index, keyed `String(i)`; any other value gives no rows |
| `ProductForm.RemoveIndex` | app/admin/components/ProductForm.tsx:66-68 | `filter((_, i) => i !== index)`: every row but the one at `index` |
| `ProductForm.RemoveIndexSlices` | app/admin/components/ProductForm.tsx:66-68 | filtering out a position removes exactly that row and keeps the others in order; an absent position removes nothing |
| `ProductForm.WellTypedValidation` | app/api/admin/products/route.ts:23-39 | a well-typed form body fails validation exactly when its name, description or category is empty, and then only with "required" errors |
| `ProductForm.DefaultTextFields` | app/admin/components/ProductForm.tsx:14-16 | the defaults have an empty name and description and category `vinyl-cd` |
| `ProductForm.DefaultOtherFields` | app/admin/components/ProductForm.tsx:18-21 | the defaults have zero price and stock, no ids and no attributes |
| `ProductForm.DefaultsWellTyped` | app/admin/components/ProductForm.tsx:13-21 | the default form data is well typed |
| `ProductForm.AssignKeepsWellTyped` | app/admin/components/ProductForm.tsx:41-72 | a handler's assignment of a value of the right type keeps the form well typed |
| `ProductForm.Form.constructor` | app/admin/components/ProductForm.tsx:13-39 | the initial form data, the initial rows, and the attributes effect having run; a new product's form is well typed |
| `ProductForm.Form.HandleChange` | app/admin/components/ProductForm.tsx:41-44 | only the named property changes; a text field keeps the form well typed |
| `ProductForm.Form.HandleCategoryChange` | app/admin/components/ProductForm.tsx:46-49 | only `category` changes, and the form stays well typed |
| `ProductForm.Form.HandleNumberChange` | app/admin/components/ProductForm.tsx:51-54 | only the named property changes, to the parsed number or 0 |
| `ProductForm.Form.HandleAttributeChange` | app/admin/components/ProductForm.tsx:56-60 | only the chosen field of the chosen row changes; the length and every other row are kept; the record is refolded |
| `ProductForm.Form.HandleAddAttribute` | app/admin/components/ProductForm.tsx:62-64 | an empty row is appended after the unchanged rows, and the folded record does not change |
| `ProductForm.Form.HandleRemoveAttribute` | app/admin/components/ProductForm.tsx:66-68 | exactly the row at the position is removed, the others keep their order, and the record is refolded |
| `ProductForm.Form.HandleCloudinaryPublicIdsChange` | app/admin/components/ProductForm.tsx:70-72 | only `cloudinaryPublicIds` changes |
| `ProductForm.Form.Submit` | app/admin/components/ProductForm.tsx:79-88 | PUT to `/api/admin/products/<_id>` exactly when editing, POST to `/api/admin/products` otherwise, with the form data as body |
| `ImageUpload.SuccessfulRun` | app/admin/components/ImageUpload.tsx:42-66 | the files before the run's end all uploaded, and the run ends at the first failure or at the end |
| `ImageUpload.UploadedIds` | app/admin/components/ImageUpload.tsx:54-56 | the kept ids are the public ids of the uploads before the first failure, in file order |
| `ImageUpload.UploadError` | app/admin/components/ImageUpload.tsx:57-64 | there is an error exactly when some file did not upload; it is the first failure's message, naming that file |
| `ImageUpload.SuccessfulRunUnique` | app/admin/components/ImageUpload.tsx:42-66 | the first failure is the only place the loop can stop |
| `ImageUpload.AllUploaded` | app/admin/components/ImageUpload.tsx:42-68 | when every upload succeeds, every file's id is kept, in order |
| `ImageUpload.FailureHidesRest` | app/admin/components/ImageUpload.tsx:42-68 | partial success is kept, and nothing after the first failure matters |
| `ImageUpload.Without` | app/admin/components/ImageUpload.tsx:73-74 | the removed id no longer occurs and the list does not grow |
| `ImageUpload.WithoutAppend` | app/admin/components/ImageUpload.tsx:74 | removal works piece by piece, so the other ids keep their order |
| `ImageUpload.WithoutCounts` | app/admin/components/ImageUpload.tsx:74 | removal drops every copy of the id and keeps every copy of every other id |
| `ImageUpload.Uploader.constructor` | app/admin/components/ImageUpload.tsx:12-16 | nothing selected, the initial ids, not uploading, no error |
| `ImageUpload.Uploader.HandleFileChange` | app/admin/components/ImageUpload.tsx:26-30 | a file list replaces the selection; no list leaves it |
| `ImageUpload.Uploader.HandleUpload` | app/admin/components/ImageUpload.tsx:32-71 | with nothing selected only the error is set; otherwise files are tried in order up to and including the first failure, the successful ids are appended, the failure's message is set, and the selection is cleared and `uploading` is false |
| `ImageUpload.Uploader.HandleRemoveImage` | app/admin/components/ImageUpload.tsx:73-76 | only the id list changes, by removing every copy of the id |
| `Auth.AllowedEmails` | auth.ts:18 | an unset variable gives no addresses; a set one gives at least one piece, whose join is the variable |
| `Auth.SignIn` | auth.ts:17-25 | a refusal sends to `/auth/error`; an allowed user has a non-empty email and the variable is set |
| `Auth.SignInAllowlist` | auth.ts:18-20 | sign-in is allowed exactly for a non-empty email equal to one of the comma-joined addresses |
| `Auth.SpaceAfterCommaDenied` | auth.ts:18-19 | no trimming: an address listed with a space after the comma does not match |
| `Auth.SignInUnset` | auth.ts:18-23 | with the variable unset every sign-in is refused |
| `Auth.Redirect` | auth.ts:26-33 | a relative URL goes to `baseUrl + url`; a full URL on the base's origin is kept; any other full URL goes to `baseUrl + "/admin"`; the callback throws exactly when the URL is not relative and does not parse; the target is never on a foreign origin |
| `Auth.RedirectIdempotent` | auth.ts:26-33 | redirecting a redirect's result changes nothing, when the base is an absolute origin |

## Left out

- **Network, database and image-service I/O.** `dbConnect`, `fetch`, the image-service configuration and upload API, `mongoose.connect` and `disconnect`, `dotenv`, `process.exit` and console output are left out. The store is a class holding a sequence; upload results, the driver's new `_id`, the environment variable and the URL parser are parameters.
- **Concurrency.** The race between `findOne` and `create` is not modelled. Each operation runs alone against the store.
- **No retry on a duplicate key.** A duplicate-key refusal from `create` ends as the generic 500 response. The code has no retry loop, so the model has none.
- **Extra validation rules.** The route does not check that price and stock are non-negative, nor that at least one image is given. Such bodies are accepted, and the model accepts them too.
- **Floating point.** Numbers are integers; NaN, `parseFloat` and `toFixed` are left out. `HandleNumberChange` takes `parseFloat`'s result as an `Option<int>`, with None for a value that does not parse.
- **Enumeration order of object properties.** A JavaScript object lists integer-like property names (`"1"`, `"2024"`) first, in ascending order, before its other names in insertion order. The model keeps every property in insertion order. This affects `JsValues.Entries`, `ProductForm.InitialAttributes` and `ProductForm.FoldAttributes` (and the order of the submitted JSON) for attribute names that look like integers. Property lookups do not depend on order.
- **Listing order.** `find({})` with no sort has no guaranteed order. `FindAll` returns the stored sequence, which is one order the database may use.
- **Timestamps and version key.** `timestamps: true` depends on the clock and is left out. `createdAt`, `updatedAt` and the version key `__v` are in the JSON the API returns, so `...initialData` spreads them into the form data; `ProductProps` leaves all three out.
- **Mongoose casting.** Type coercion (`"5"` to 5), the implicit empty-array default of array paths, and the exact text of error messages are not modelled. Mongoose prefixes a validation message with the model and the path. MongoDB's duplicate-key message names the collection, the index and the duplicate value; `ErrorMessage` names only the path. A value of the wrong type is a cast failure, and errors carry their path only.
- **Client-supplied `_id`.** A client-supplied `_id` in the body is not modelled; the record's identifier is the `newId` parameter.
- **Request bodies.** A JSON parse failure of the request body is not modelled; the body is a parsed value. Objects with duplicate property names are not modelled.
- **Undeclared `imageUrls`.** The migration script reads and filters on `imageUrls`, a path the product schema does not declare. The model treats it as an ordinary field of the stored document; the effect of mongoose's strict mode on that path is not modelled.
- **Validation errors as values.** `ProductsRoute.CollectErrors` collects errors as `Check` values rather than strings. `MessagesOf` renders them with the handler's exact messages.
- **Rendering.** All JSX markup and the presentational components are left out.
- **Effects between the two components.** These are not modelled:
  - the picker reporting its ids to the form through `onImageUpload`;
  - the picker resetting its ids when `initialCloudinaryPublicIds` changes.
  The form's `HandleCloudinaryPublicIdsChange` models what the form does when it receives the ids.
- **After a submit.** `loading` and `error` in the form, the response handling, `alert` and navigation are left out. `Submit` gives the request only.
- `ProductForm.Form.HandleAttributeChange`: requires an existing row index. The handler is only called from a rendered row; an out-of-range index would extend the JavaScript array, which is not modelled.
- `ProductForm.Form.HandleChange`: states `Valid()` afterwards only for names other than `attributes`, because a text input named `attributes` would replace the record with a string.
- `ProductsRoute.Post`: for a validated body with a known category whose text fields are not strings, or whose `featured` has another type, states only that the answer is a 201 or a 500, and that a 500 comes from a cast failure or a taken id with the store unchanged. It does not say which of the two occurs, nor which cast error.
- `ImageUpload.Uploader.HandleUpload`: requires one outcome per selected file. A file's upload either returns a response or throws, and `outcomes` records which.
