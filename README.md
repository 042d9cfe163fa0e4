# Product admin dashboard — a verified model of its core

This project models the core logic of a Next.js product-catalogue admin dashboard in Dafny and proves properties of that model. It covers:

- the Zod schemas that validate a product in three steps, and their merge;
- the three-step product form: its `step`, `errors` and `formData` state, the handlers that change that state, and the comma-separated tags field;
- the image uploader: the quota test, the all-or-nothing append, removing an image, and the dropzone cap;
- the statistics the dashboard's `GET /api/stats` computes from the loaded products;
- the Mongoose product and administrator documents: their constraints, `trim`/`lowercase` setters and defaults, and the unique `sku` and admin email;
- what the product table derives from the products: the stock badge, the category options, the description preview, compare-price visibility and the query string;
- the sidebar's navigation list and its active-link test.

Layout, one module per source file plus three helpers:

| file | module | models |
|---|---|---|
| `wrappers.dfy` | `Wrappers` | `Option` |
| `text.dfy` | `Text` | ECMAScript `trim`, ASCII `toLowerCase`, `split` on one character, `join` |
| `seqs.dfy` | `Seqs` | `map`, and first-seen de-duplication (`Array.from(new Set(xs))`) |
| `product_model.dfy` | `ProductModel` | `models/Product.ts` |
| `admin_model.dfy` | `AdminModel` | `models/Admin.ts` |
| `product_validation.dfy` | `ProductValidation` | `lib/validations/product.ts` |
| `product_wizard.dfy` | `ProductWizard` | `components/products/MultiStepProductForm.tsx` (class `ProductForm`) |
| `image_upload.dfy` | `ImageUpload` | `components/ui/ImageUpload.tsx` (class `Uploader`) |
| `stats.dfy` | `Stats` | `app/api/stats/route.ts`, lines 22–88 |
| `product_table.dfy` | `ProductTable` | `components/products/ProductTable.tsx` |
| `sidebar.dfy` | `Sidebar` | `components/layout/Sidebar.tsx` |

Modelling choices:

- **Numbers are exact `real`s.** Prices and quantities are JavaScript doubles in the source; rounding is not modelled.
- **Coerced numbers.** A number the schemas coerce is a `NumInput`: `Missing` (the key is absent), `Num(v)`, or `NotNumber` (`Number(x)` is NaN). A number field of the form reports `parseFloat` as an `Option<real>`, where `None` is NaN.
- **Issues in Zod's order.** A schema's issues are a sequence in Zod's order: keys in declaration order, and every check of a key in declaration order, all of them run.
- **Last message wins.** `validateStep` copies the issues into the error map one by one, so when a field has two issues the later message replaces the earlier one. The model follows this code (`ProductWizard.ErrorMapLastWins`, `ProductWizard.StockErrorLastWins`).
- **The form is a class.** `ProductForm` has the fields `step`, `errors` and `formData`. Each handler is a method.
  - The invariant `Valid()` says that `step` is 1, 2 or 3 and that every step before the current one accepts the draft.
  - The edit methods require that the field belongs to the current step, because the form only renders that step's inputs. The exception is `SetImages`: the uploader's `onChange` can arrive at any step, because an upload started at step 3 may settle after Back was pressed.
  - `HandleNext` requires `step < 3` and `HandleBack` requires `step > 1`, because the Next and Back buttons are rendered only then.
- **The uploader is a class.** `Uploader` holds the owner's list `value`, `uploading`, and the list and file count that a running `onDrop` captured. `Drop` and `Settle` are the parts of `onDrop` before and after the uploads. A removal between them is undone when the batch succeeds, because the append starts from the captured list.
- **Stats loops are methods.** The `categoryMap` loop is the method `Stats.CountCategories`. `products.sort(...)` is the method `Stats.SortBySalesInPlace`, a stable insertion sort on the array. It is proved equal to the functional specification `Stats.SortBySales`, which is proved sorted, a permutation, and stable.

## Model

| member | source | states |
|---|---|---|
| Text.Trim | components/products/MultiStepProductForm.tsx:124 | `trim` leaves a string with no white space at either end, no longer than the input, and empty exactly when the input is all white space |
| Text.TrimIdempotent | models/Product.ts:27 | trimming a trimmed value again changes nothing, so the `trim` setter is idempotent |
| Text.TrimPadded | models/Admin.ts:20 | `trim` removes exactly the white-space padding around a trimmed string |
| Text.Lower | models/Admin.ts:21 | lower-casing keeps the length, leaves no upper-case ASCII letter, turns each one into its lower-case letter in place, and keeps every other character |
| Text.LowerIdempotent | models/Admin.ts:21 | lower-casing twice is the same as lower-casing once |
| Text.LowerKeepsTrimmed | models/Admin.ts:20-21 | lower-casing keeps a trimmed string trimmed |
| Text.Split | components/products/MultiStepProductForm.tsx:124 | `split(',')` yields one piece more than there are commas, and no piece contains a comma |
| Text.SplitAfter | components/products/MultiStepProductForm.tsx:124 | splitting `a , b`, where `a` has no comma, yields `a` followed by the pieces of `b` |
| Text.SplitJoin | components/products/MultiStepProductForm.tsx:124 | joining the pieces of `split(sep)` with `sep` gives back the string, so together with the piece count the pieces are determined |
| Seqs.Distinct | components/products/ProductTable.tsx:54-56 | first-seen de-duplication has no duplicates, and keeps only elements of the input |
| Seqs.DistinctMembers | components/products/ProductTable.tsx:54-56 | an element is in the de-duplicated list exactly when it is in the input |
| Seqs.DistinctFirstSeen | app/api/stats/route.ts:41-46 | the de-duplicated elements come in the order of their first occurrence |
| ProductModel.Create | models/Product.ts:22-92 | `Product.create` stores a document exactly when every field rule holds: the required text fields are present and not blank, the name is at most 200 characters after trimming, and every number is at least 0 (or absent where optional). The stored text fields are trimmed. Every other field is stored as given, or, when left out, as its default: stock 0, threshold 10, tags and images empty, active, sales 0 |
| ProductModel.StoredValid | models/Product.ts:22-92 | once the required fields are present, the stored form meets every constraint exactly when the rules hold of the raw input |
| ProductModel.CreateAccepts | models/Product.ts:22-92 | a document meeting every rule is stored |
| ProductModel.ResaveIsIdentity | models/Product.ts:24-59 | saving a stored product again gives back the same product |
| ProductModel.InsertIntoCatalog | models/Product.ts:49-54 | a valid product can join a catalog with unique skus, keeping the skus unique, exactly when its sku is not among the skus of the catalog's products (`Skus`) |
| AdminModel.IsEmailMatchesPattern | models/Admin.ts:22 | the position test decides exactly the language of `^\S+@\S+\.\S+$` (three non-empty space-free runs joined by `@` and `.`) |
| AdminModel.IsEmailSplits | models/Admin.ts:22 | a string passing the position test splits into the three runs of the pattern |
| AdminModel.JoinedIsEmail | models/Admin.ts:22 | three non-empty space-free runs joined by `@` and `.` pass the position test |
| AdminModel.ParseRole | models/Admin.ts:34-38 | a role is accepted exactly when it is absent, `admin` or `super-admin`; `admin` and absence give the admin role, `super-admin` the super-admin role |
| AdminModel.Create | models/Admin.ts:14-47 | `Admin.create` stores exactly when: the trimmed, lower-cased email matches the pattern; the password has at least 6 characters; the name is present and not blank; and the role is absent or one of the two values. The stored email is normalised and the name trimmed. The role is the parsed role and `isActive` the given flag, defaulting to `admin` and true |
| AdminModel.EmailDecided | models/Admin.ts:16-23 | on a normalised email the position test and the pattern agree |
| AdminModel.CreatedIsValid | models/Admin.ts:14-47 | a stored administrator has a matching, lower-case, trimmed email, a password of at least 6 characters and a non-empty trimmed name |
| AdminModel.SeedEmailAccepted | models/Admin.ts:22 | `admin@example.com` matches the pattern |
| AdminModel.NormalizeStripsPadding | models/Admin.ts:20-21 | a padded address is stored as its lower-cased core, and normalising the result again changes nothing |
| AdminModel.EmailRejections | models/Admin.ts:22 | `admin@example` (no dot after the `@`) and `@example.com` (nothing before the `@`) do not match |
| AdminModel.InsertAdmin | models/Admin.ts:19-21 | a new administrator keeps the stored emails unique exactly when the normalised form of the given address is not in use |
| AdminModel.PaddedEmailCollides | models/Admin.ts:19-21 | an address that differs from a stored one only by leading white space collides with it on the `unique` index |
| ProductValidation.StepOf | lib/validations/product.ts:3-20 | every field belongs to exactly one of the steps 1, 2, 3 |
| ProductValidation.BasicIssues | lib/validations/product.ts:3-8 | step 1 reports only step-1 fields, and reports nothing exactly when: the name has 1 to 200 characters; the description has at least 10; and category and sku are non-empty |
| ProductValidation.NameIssues | lib/validations/product.ts:4 | the name's issues are keyed to `name`: `Product name is required` when it is empty, `Name too long` when it is over 200 characters, otherwise none |
| ProductValidation.OtherBasicIssues | lib/validations/product.ts:5-7 | description, category and sku report no `name` issue, and nothing exactly when all three rules hold |
| ProductValidation.ParseBasic | lib/validations/product.ts:3-8 | step 1 accepts exactly under the rules above and yields the four declared fields (not `tags`); a rejection has at least one issue, all keyed to step 1 |
| ProductValidation.NameMessages | lib/validations/product.ts:4 | an empty name reports exactly `Product name is required` under `name`, an over-long one exactly `Name too long`, a valid one nothing |
| ProductValidation.NonNegativeIssues | lib/validations/product.ts:11-12 | a coerced number's issues are keyed to its own field |
| ProductValidation.CountIssues | lib/validations/product.ts:13-14 | an integer field's issues are keyed to its own field |
| ProductValidation.PricingIssues | lib/validations/product.ts:10-15 | step 2 reports only step-2 fields |
| ProductValidation.ParsePricing | lib/validations/product.ts:10-15 | step 2 accepts exactly when: the price is a number at least 0; the compare price is absent or a number at least 0; and stock and threshold are integers at least 0 (0 is accepted). An absent threshold becomes 10 and an absent compare price stays absent; a rejection has issues keyed to step 2 |
| ProductValidation.NegativeFractionalStock | lib/validations/product.ts:13 | a negative non-integer stock reports two messages under `stockQuantity`: the integer message, then `Stock must be positive` |
| ProductValidation.ImagesIssues | lib/validations/product.ts:18 | step 3 reports only step-3 fields |
| ProductValidation.ParseImages | lib/validations/product.ts:17-20 | step 3 accepts exactly a non-empty image list, yields it, and defaults `isActive` to true; the rejection is the single `images` issue |
| ProductValidation.MergeIsConjunction | lib/validations/product.ts:22-24 | the merged schema accepts exactly when all three step schemas accept, and yields their three results |
| ProductValidation.MergeKeepsStepMessages | lib/validations/product.ts:22-24 | because the key sets are disjoint, the merged schema reports for each field exactly the messages of the step owning it |
| ProductValidation.DisjointMessages | lib/validations/product.ts:22-24 | concatenated issue lists keyed to steps 1, 2 and 3 give each field the messages of its own step's list |
| ProductValidation.ForeignMessages | lib/validations/product.ts:22-24 | issues keyed to one step carry no message for a field of another step |
| ProductValidation.CostAndTagsUnconstrained | lib/validations/product.ts:3-20 | changing only `cost` or `tags` never changes the issues of step 1, step 2 or the merge |
| ProductValidation.ParsedRecordIsNeverStored | app/api/products/route.ts:63-76 | as written, no record that the merged schema accepts can be stored by `Product.create`, because `cost` is required there and the merged schema strips it |
| ProductValidation.ParseStorable | lib/validations/product.ts:22-24 | the corrected merged schema accepts exactly what the merge accepts together with a cost at least 0, and yields the merge's data with that cost and the given tags, empty by default |
| ProductValidation.StorableParsed | app/api/products/route.ts:63-76 | what the corrected schema hands to `Product.create`, field by field: the text fields unchanged, every number at least 0 or absent, and `sales` absent |
| ProductValidation.StorableRecordIsStored | app/api/products/route.ts:63-76 | with the corrected schema, a parsed record whose text fields are not blank is stored |
| ProductValidation.BlankNamePassesSchema | lib/validations/product.ts:4 | a name of three spaces passes step 1, but `Product.create` refuses it once trimmed |
| ProductWizard.AllStepsAcceptMeansProductAccepts | components/products/MultiStepProductForm.tsx:128-153 | a draft that all three steps accept passes the merged schema |
| ProductWizard.ErrorMapLastWins | components/products/MultiStepProductForm.tsx:157-162 | the error map has a field exactly when some issue is keyed to it, and holds the last such message |
| ProductWizard.StockErrorLastWins | components/products/MultiStepProductForm.tsx:157-162 | a negative fractional stock shows `Stock must be positive`, not the integer message |
| ProductWizard.EmptyNameBlocksStep1 | components/products/MultiStepProductForm.tsx:128-167 | with an empty name step 1 fails and the error map shows `Product name is required` under `name` |
| ProductWizard.AssignKeepsOtherSteps | components/products/MultiStepProductForm.tsx:104-112 | editing a field of one step leaves the issues of every other step unchanged |
| ProductWizard.ParseTagsShape | components/products/MultiStepProductForm.tsx:124 | parsing the tags text yields one tag per comma plus one, each the trimmed piece, trimmed and free of commas |
| ProductWizard.ParseSingle | components/products/MultiStepProductForm.tsx:124 | a text without commas parses to its trimmed self |
| ProductWizard.ParseCons | components/products/MultiStepProductForm.tsx:124 | the text before the first comma becomes the first tag |
| ProductWizard.ParseJoined | components/products/MultiStepProductForm.tsx:124 | parsing white space followed by trimmed, comma-free tags joined by `, ` gives back the tags |
| ProductWizard.TagsRoundTrip | components/products/MultiStepProductForm.tsx:290 | rendering a non-empty list of trimmed, comma-free tags with `join(', ')` and parsing it back gives the list |
| ProductWizard.EmptyTagsRoundTrip | components/products/MultiStepProductForm.tsx:290 | no tags render as the empty text, which parses back to one empty tag |
| ProductWizard.ProductForm.constructor | components/products/MultiStepProductForm.tsx:43-65 | the form starts at step 1 with no errors and the initial draft (stock 0, threshold 10, active, no images or tags), or with `initialData` when editing |
| ProductWizard.ProductForm.Rehydrate | components/products/MultiStepProductForm.tsx:61-65 | a changed `initialData` replaces the whole draft and leaves the step and the errors; the invariant survives exactly when every earlier step accepts the new draft, so always at step 1 |
| ProductWizard.ProductForm.HandleChange | components/products/MultiStepProductForm.tsx:98-121 | the edit updates only its field and removes only that field's error; a number field takes `parseFloat(value) \|\| 0` (`NumberValue`: NaN becomes 0); the step and the invariant are kept |
| ProductWizard.ProductForm.HandleTagsChange | components/products/MultiStepProductForm.tsx:123-126 | the tags become the parse of the raw text; nothing else changes |
| ProductWizard.ProductForm.SetImages | components/products/MultiStepProductForm.tsx:392-398 | the uploader's `onChange`, at whatever step it arrives, replaces the image list only and does not clear the `images` error; the invariant is kept, because the images belong to no earlier step |
| ProductWizard.ProductForm.SetActive | components/products/MultiStepProductForm.tsx:404-416 | the checkbox sets `isActive` only, and leaves the errors alone |
| ProductWizard.ProductForm.ValidateStep | components/products/MultiStepProductForm.tsx:128-167 | the result is true exactly when step `k`'s schema accepts the draft, and the errors become the error map of that step's issues |
| ProductWizard.ProductForm.HandleNext | components/products/MultiStepProductForm.tsx:169-175 | the form advances by exactly one step when the current step validates; otherwise the step stays and the errors are that step's error map |
| ProductWizard.ProductForm.HandleBack | components/products/MultiStepProductForm.tsx:177-179 | one step back, with the draft and the errors unchanged, and the step stays within 1 to 3 |
| ProductWizard.ProductForm.HandleSubmit | components/products/MultiStepProductForm.tsx:181-188 | the draft is handed over exactly when the current step validates, and then every step up to the current one accepts it; at step 3 it passes the merged schema |
| ProductWizard.SubmittedDraftIsNotStored | app/api/products/route.ts:63-76 | as written, a draft that all three steps accept still cannot be stored |
| ProductWizard.SubmittedDraftIsStored | app/api/products/route.ts:63-76 | with the corrected schema, a draft that all three steps accept, with a cost at least 0 and no blank text field, is stored |
| ImageUpload.AllUrls | components/ui/ImageUpload.tsx:61 | `Promise.all` gives every URL in file order exactly when every upload succeeded |
| ImageUpload.OverQuotaUnchanged | components/ui/ImageUpload.tsx:24-27 | a drop that would exceed `maxFiles` leaves the list as it was |
| ImageUpload.AcceptedDropAppends | components/ui/ImageUpload.tsx:32-62 | when every upload succeeds, the list becomes the old list followed by the URLs in file order, within `maxFiles` |
| ImageUpload.FailedDropUnchanged | components/ui/ImageUpload.tsx:61-69 | one failed upload discards the whole batch |
| ImageUpload.DropRespectsQuota | components/ui/ImageUpload.tsx:24-62 | a drop either leaves the list unchanged or extends it to at most `maxFiles` entries |
| ImageUpload.RemoveAt | components/ui/ImageUpload.tsx:83-86 | `removeImage(i)` deletes exactly entry `i`, keeping the order of the rest; an index out of range changes nothing |
| ImageUpload.CapMatchesQuota | components/ui/ImageUpload.tsx:79-80 | a drop within the dropzone's cap always passes the quota test, and an enabled dropzone admits at least one file |
| ImageUpload.FullListTakesNothing | components/ui/ImageUpload.tsx:24-27 | once the list is full no file can be added |
| ImageUpload.Uploader.constructor | components/ui/ImageUpload.tsx:15-20 | `value` defaults to no images, `maxFiles` to 5, and nothing is uploading |
| ImageUpload.Uploader.Drop | components/ui/ImageUpload.tsx:22-29 | a drop is accepted exactly when it passes the quota test; an accepted drop captures the current list and marks the upload as running, and a refused one changes nothing |
| ImageUpload.Uploader.Settle | components/ui/ImageUpload.tsx:61-69 | once the uploads settle, the list becomes the captured list plus the URLs when all succeeded, and stays otherwise; `uploading` is switched off |
| ImageUpload.Uploader.RemoveImage | components/ui/ImageUpload.tsx:83-86 | removing an image changes only the list, even during an upload |
| ImageUpload.RemovalDuringUploadIsUndone | components/ui/ImageUpload.tsx:62 | a removal made while a batch uploads is undone when the batch succeeds |
| Stats.CountBounds | app/api/stats/route.ts:23-26 | a filtered count is at most the number of products; it is 0 exactly when no product qualifies, and the total exactly when all do |
| Stats.CountMonotone | app/api/stats/route.ts:24-26 | a test that holds wherever another does counts no more |
| Stats.CountComplement | app/api/stats/route.ts:64-78 | two complementary tests split the products between them |
| Stats.SumNonNegative | app/api/stats/route.ts:28-38 | a sum of terms that are at least 0 is at least 0 |
| Stats.CategoryCountPositive | app/api/stats/route.ts:43 | a category's count is positive exactly when some product has it |
| Stats.CountsAddUp | app/api/stats/route.ts:41-44 | the counts of the distinct categories add up to the number of products |
| Stats.TotalValueMatchesCounts | app/api/stats/route.ts:46-51 | the values of the entries add up to the sum of the counts of their names |
| Stats.CategoryDataNames | app/api/stats/route.ts:41-51 | `categoryData` names every category once, each product's category among them (`Categories` lists the products' categories in product order), in order of first occurrence |
| Stats.CategoryDataCounts | app/api/stats/route.ts:41-51 | each entry's value is the number of products in its category, and it is positive |
| Stats.CategoryDataTotal | app/api/stats/route.ts:41-51 | the values of `categoryData` add up to `totalProducts` |
| Stats.TallyKnown | app/api/stats/route.ts:42-44 | a turn of the `forEach` on a category already met adds one to its count and keeps the loop invariant |
| Stats.TallyNew | app/api/stats/route.ts:42-44 | a turn on a new category appends it to the keys with count 1 and keeps the loop invariant |
| Stats.CountCategories | app/api/stats/route.ts:41-51 | the `categoryMap` loop and its map to entries compute `categoryData` |
| Stats.InsertKeepsSorted | app/api/stats/route.ts:55 | inserting into a list sorted by sales (non-increasing) keeps it sorted |
| Stats.SortIsSorted | app/api/stats/route.ts:55 | the sort yields a list in non-increasing order of sales, of the same length |
| Stats.SortIsPermutation | app/api/stats/route.ts:55 | the sort is a permutation of the products |
| Stats.SortIsStable | app/api/stats/route.ts:55 | products with equal sales keep their relative order |
| Stats.SortKeepsCounts | app/api/stats/route.ts:54-78 | sorting does not change any filtered count, so the stock buckets taken after the sort count the original products |
| Stats.InsertInPlace | app/api/stats/route.ts:55 | the insertion step performed on the array equals the functional insertion and leaves the rest of the array untouched |
| Stats.SortBySalesInPlace | app/api/stats/route.ts:55 | sorting the array in place leaves it equal to the stable functional sort of its old contents |
| Stats.ComputeStats | app/api/stats/route.ts:22-88 | the body of `GET` computes the snapshot of the loaded products and leaves the array sorted by sales |
| Stats.EmptyStats | app/api/stats/route.ts:22-88 | with no products, every figure is 0, the category and top lists are empty, and December is (0, 0) |
| Stats.OverviewFacts | app/api/stats/route.ts:22-26 | `totalProducts` is the number of products; all are active exactly when `activeProducts` equals it; and none is low on stock exactly when `lowStockProducts` is 0 |
| Stats.TotalsNonNegative | app/api/stats/route.ts:28-38 | over stored products, revenue, sales and stock value are at least 0 |
| Stats.StockDataFacts | app/api/stats/route.ts:64-78 | the buckets are In Stock, Low Stock and Out of Stock, in that order. Low Stock equals `lowStockProducts`, In Stock plus Low Stock is the number of products, and with no negative threshold Out of Stock is at most Low Stock (zero stock counts twice) |
| Stats.TopProductsFacts | app/api/stats/route.ts:54-61 | the top list has min(5, n) entries, non-increasing in sales; each is the product in that place of the stable sort, with revenue price times sales |
| Stats.TopOfSorted | app/api/stats/route.ts:56-61 | on a list sorted by sales the top list has min(5, n) entries, non-increasing in sales, each the product in its place with revenue price times sales |
| Stats.MonthlyFacts | app/api/stats/route.ts:81-88 | six points: five fixed months, then December with the live totals |
| Stats.OneProductExample | app/api/stats/route.ts:22-88 | one product priced 10 with 3 sold, none in stock and a threshold of 5 gives revenue 30 and sales 3. It is counted as low stock and as out of stock, forms one category of count 1, and is the one top entry |
| ProductTable.StockBadge | components/products/ProductTable.tsx:182-186 | the badge is red exactly at zero stock, yellow exactly when the stock is non-zero and at most the threshold, and green exactly when it is above the threshold |
| ProductTable.BadgeAgainstStats | components/products/ProductTable.tsx:182-186 | a yellow badge is a Low Stock product on the dashboard, and red is exactly Out of Stock. With a threshold at least 0 a red product is also counted as Low Stock, and a stored product is green exactly when it is In Stock |
| ProductTable.ZeroStockIsNeverLow | components/products/ProductTable.tsx:182-184 | zero stock never shows yellow, while the dashboard counts it as low stock whenever the threshold is at least 0 |
| ProductTable.CategoryOptions | components/products/ProductTable.tsx:54-56 | the category options have no duplicates, and there are none while the products are loading |
| ProductTable.CategoryOptionsFacts | components/products/ProductTable.tsx:54-56 | a category is offered exactly when some product has it; for the same sequence of products the options are the names of `categoryData`, in the same order |
| ProductTable.ShortPreview | components/products/ProductTable.tsx:156 | a description of at most 50 characters shows whole, followed by `...` |
| ProductTable.PreviewIgnoresTail | components/products/ProductTable.tsx:156 | the preview before its `...` is a prefix of the description, and nothing after the fiftieth character changes it |
| ProductTable.ZeroComparePriceHidden | components/products/ProductTable.tsx:172 | a compare price is shown exactly when it is above 0, so 0 or none is hidden |
| ProductTable.QueryParams | components/products/ProductTable.tsx:20-22 | at most two parameters, none with an empty value |
| ProductTable.QueryParamsFacts | components/products/ProductTable.tsx:20-22 | `search` is sent exactly when it is set and `category` exactly when it is set, `search` first, and no other key |
| Sidebar.BuildNavigation | components/layout/Sidebar.tsx:13-21 | the navigation is Dashboard, Products, Add Product, plus Add Admin last exactly for a signed-in user; the hrefs and the names are all distinct, and every entry is active on its own page |
| Sidebar.DashboardOnlyAtRoot | components/layout/Sidebar.tsx:24-26 | the dashboard entry is active exactly on `/` |
| Sidebar.NewProductPageHighlightsTwo | components/layout/Sidebar.tsx:27 | on `/products/new` both Products and Add Product are active, and neither the dashboard nor Add Admin is |
| Sidebar.PrefixIsNotSegment | components/layout/Sidebar.tsx:27 | the test compares characters, not path segments: `/products` is active on `/products-archive` |
| Sidebar.ActiveOnDeeperPaths | components/layout/Sidebar.tsx:27 | an entry other than the dashboard stays active on every longer path |

## Left out

- Network, database and session plumbing are not modelled. This covers `fetch` and the React Query mutation, `connectDB` and `Product.find`, the SKU lookup in the create route, NextAuth sessions, `router.push` and toasts. The model starts from the data these deliver: the loaded products, the per-file upload outcomes, and whether a user is signed in.
- The upload of each file, through `FileReader`, base64 encoding, `POST /api/upload` and the parallelism of the promises, is not modelled. Its result is a sequence of outcomes, one per file in drop order.
- The dropzone's own behaviour is not modelled: its `accept` filter and its handling of more files than `maxFiles`. The model states the cap and the disabled rule that the component passes to it.
- `ImageUpload.Uploader.Drop` requires that no upload is running, so two batches never overlap in the model. They can overlap in the program: the dropzone is disabled only while the mounted uploader's `uploading` is true, and Back followed by Next remounts the uploader with `uploading` false while the first batch is still pending. That first batch then calls `onChange` from its own captured list, and the model does not capture this interleaving.
- Floating point is not modelled: numbers are exact reals, so rounding in sums and products is absent.
- Text is a sequence of code points. JavaScript's UTF-16 lengths (`min`, `max`, `substring`, `maxlength`) differ from this for characters outside the Basic Multilingual Plane.
- `Text.Lower`: lower-cases ASCII letters only, because full Unicode case mapping is out of scope; `toLowerCase` also maps other letters.
- Parsing a number from text, in `parseFloat` and `z.coerce.number()`, is abstracted to `Option<real>` and `NumInput`.
- Mongoose's validator execution order and error objects are not modelled; `Create` returns `None` for any failure. The `unique` indexes on the product `sku` and the admin email are predicates on a list of stored documents (`ValidCatalog`, `UniqueEmails`); the database enforcing them is not modelled.
- The password of an administrator is validated but never hashed in the model; hashing happens outside the schema.
- Rendering is not modelled: CSS classes, `Intl.NumberFormat`, and the step indicator.
- URL encoding of the query string by `URLSearchParams` is not modelled; parameters are key–value pairs.
- The form's `CATEGORIES` list only feeds a `<select>` and is not modelled; the schema accepts any non-empty category.
- `ProductWizard.ProductForm.Rehydrate`: after a refetch that replaces the draft with one an earlier step rejects, the invariant no longer holds, and the model does not follow the form further, because every handler requires the invariant. The source would go on validating only the current step.
- `ProductWizard.ProductForm.HandleChange`: the form's number fields keep `parseFloat(value) || 0`, so a number field can never be absent; `compareAtPrice` is absent only when `initialData` lacks it.

## Findings

| source | as written | input that shows it | evidently intended | confidence | as-written member | corrected member |
|---|---|---|---|---|---|---|
| lib/validations/product.ts:22-24 | The merged `productSchema` declares neither `cost` nor `tags`, so Zod strips both. The create route then passes the parsed record to `Product.create` (app/api/products/route.ts:63,76), where `cost` is required (models/Product.ts:44-48), so creating a product always fails validation. | Any draft that all three steps accept, e.g. name `Mug`, description `A sturdy mug`, category `Home`, sku `MUG-1`, price 10, cost 4, stock 3, one image | The merged schema also declares `cost` as a number at least 0 and `tags` with an empty default, so the record keeps them and is stored | not executed | ProductValidation.ParsedRecordIsNeverStored | ProductValidation.StorableRecordIsStored |
