# Shopping list: stores, reordering, product cards and name formatting

This project is a Dafny model of the core of a small client-side shopping-list
app. Products and categories live in two object stores of the browser's local
database. Each store maps a name to a record. The model covers four parts.

- **The stores.** `Store.ObjectStore<V>` models one object store as a
  `map<string, V>` that its methods update in place. The helpers of
  `src/db/experiment.ts` sit on top of it (module `Experiment`), and so does the
  older API of `src/db/index.ts` (module `ProductDb`). These include the
  read-modify-write helpers that change a product's amount or completion flag,
  the filter of completed products, and the seeding routines. Seeding writes
  the categories and then every seed product. Each product gets id `i + 1`,
  `isCompleted = false` and the category whose name is its `categoryKey`
  (modules `Seeding` and `Experiment`).
- **The reorder views.** `OrderView.Order` and `CategoriesView.Categories` hold
  the React state of the two drag-and-drop views: the working list and the
  `touched`/`selected` flags. A drag end moves the dragged entry to the
  target's position; it is modelled as dnd-kit's `arrayMove` in `Reorder`. A
  commit renumbers the list by position, and only a touched view commits.
- **The product card.** `CardView.Card` holds the card's own amount and
  completion flag and mirrors both into the `items` store. The minus button is
  clamped at 0. The toggle hands the pre-toggle flag to `ToggleComplete`. The
  card's image path is built from its name.
- **The string helpers.** `FormatText.Dash` and `FormatText.DashCaseSensitive`
  model `formatText.dash` and `formatText.dashCaseSensitive`.
  `FirstLetter.UpperCase` and `FirstLetter.LowerCase` model `firstLetter`.
  Module `Ascii` holds the character classes and case mapping they use.

JavaScript conventions are written out explicitly:

- `null`/`undefined` become `Option.None`.
- A thrown `Error('Error')` becomes `Result.Failure("Error")`.
- Immer's `produce` becomes a datatype update such as `p.(amount := n)`.
- JavaScript truthiness is spelled out. The drag handlers treat the id 0
  like a missing drop target. An empty name makes `lowerCase` return
  `undefined`, so the image path reads `/undefined.jpg`.

Choosing a saved preset does not make it committable.
`handleBadgeClick` sets `selected` and clears `touched`. `anyModifier` then
shows the update button, but `handleUpdate` throws unless `touched` is set.
`OrderView.Order.HandleBadgeClick` and `OrderView.Order.HandleUpdate` state
this. In `Order.tsx` the preset badges (lines 197-214) and the save form
(lines 237-253) are commented out, so no rendered control reaches
`handleBadgeClick` or the preset save; both handlers are modelled as written.

## Model

| member | source | states |
|---|---|---|
| Store.ObjectStore.Get | src/db/experiment.ts:189-196 | a record comes back exactly when one is stored under the key, and it is the stored one |
| Store.ObjectStore.GetAll | src/db/experiment.ts:179-188 | null exactly when the store is empty; otherwise every record, in ascending key order |
| Store.InKeyOrder | src/db/experiment.ts:184 | the key-ordered listing has one entry per key, contains every stored record and nothing else, and its i-th entry is the record under the i-th key in ascending order |
| KeyOrder.SortedKeys | src/db/experiment.ts:184 | exactly the store's keys, strictly ascending, the least one first |
| KeyOrder.MinKey | src/db/experiment.ts:184 | the scan finds the least key of a non-empty key set |
| Store.ObjectStore.Update | src/db/experiment.ts:198-204 | after a put, a get of that key returns the data and every other key reads as before |
| Store.ObjectStore.Delete | src/db/experiment.ts:230-239 | removes only that key; a missing key leaves the store as it was |
| Store.ObjectStore.DeleteAll | src/db/experiment.ts:222-228 | the store is empty, so a later `GetAll` returns null |
| Experiment.WithAmount | src/db/experiment.ts:206-220 | on a store whose records sit under their names, the record found under the name gets the new amount and keeps its other fields, no other key changes and the store stays keyed by name; a missing name changes nothing; no range check |
| Experiment.UpdateAmount | src/db/experiment.ts:206-220 | the store afterwards is `WithAmount` of the store before |
| Experiment.WithToggle | src/db/experiment.ts:274-290 | on a store whose records sit under their names, the record found under the name gets `isCompleted = !b` and keeps its other fields, no other key changes and the store stays keyed by name; a missing name changes nothing |
| Experiment.ToggleComplete | src/db/experiment.ts:274-290 | the store afterwards is `WithToggle` of the store before |
| Experiment.ToggleTwice | src/db/experiment.ts:281-285 | on a store whose records sit under their names, toggling with the stored flag and then with its negation restores the store |
| Seeding.FindByName | src/db/experiment.ts:249-252 | lodash `find`: absent exactly when no category has the name, otherwise the first one that has it |
| Seeding.Seeded | src/db/experiment.ts:245-255 | seed product i gets id i + 1, `isCompleted` false and the category looked up by its key; every other field is the seed's |
| Seeding.SeedProduct | src/db/experiment.ts:246-253 | the `produce` step for seed product i (the same step as src/db/index.ts:106-113); its meaning is stated through `Seeded` |
| Seeding.PutAll | src/db/experiment.ts:242-255 | one `put` per element, in list order, under the element's key; what the result holds is proved in `PutAllSpec` and `PutAllKeyedByName` |
| Seeding.PutAllSpec | src/db/experiment.ts:242-255 | writing records with distinct keys one after another leaves each under its key and every other key untouched |
| Seeding.SeededLookup | src/db/experiment.ts:261-271 | when the products' names are distinct, seeding leaves product i under its name with id i + 1, `isCompleted` false, its own amount and details, and the category named by its key |
| Seeding.PutAllKeyedByName | src/db/experiment.ts:254 | writing products under their own names keeps every record of the store under its name, and adds exactly the written names as keys |
| Seeding.WriteSeed | src/db/experiment.ts:241-256 | the categories are written under their names, then the seeded products under theirs, in list order; a store whose products sit under their names stays that way |
| Experiment.SeedCategoriesFound | src/db/experiment.ts:57-177 | every seed product's `categoryKey` names a seed category |
| Experiment.SeedNamesDistinct | src/db/experiment.ts:80-177 | the 14 seed products have distinct names |
| Experiment.SeedCategoryNamesDistinct | src/db/experiment.ts:57-78 | the 5 seed categories have distinct names |
| Experiment.UpdateCategories | src/db/experiment.ts:241-256 | writes the given categories, then rewrites every seed product from the fixed list (seed amount, `isCompleted` false, id i + 1, category looked up in the given list); the `items` store stays keyed by name |
| Experiment.Init | src/db/experiment.ts:257-272 | writes the 5 categories and the 14 seeded products; every product's category is found; the `items` store stays keyed by name |
| ProductDb.SeedCategoriesFound | src/db/index.ts:59-99 | every seed product's `categoryKey` names one of the 3 seed categories |
| ProductDb.SeedNamesDistinct | src/db/index.ts:74-99 | the 4 seed products have distinct names |
| ProductDb.Generate | src/db/index.ts:101-116 | writes 3 categories and 4 products with ids 1..4, `isCompleted` false and their category found; the `items` store stays keyed by name |
| ProductDb.UpdateCategories | src/db/index.ts:118-133 | re-seeds the 4 fixed products against the given categories; the `items` store stays keyed by name |
| ProductDb.GetProducts | src/db/index.ts:135-146 | null for an empty `items` store, otherwise every product in key order |
| ProductDb.GetCategories | src/db/index.ts:147-158 | null for an empty `categories` store, otherwise every category in key order |
| ProductDb.DeleteProducts | src/db/index.ts:160-167 | empties `items` and answers "Deleted" |
| ProductDb.ChangeAmount | src/db/index.ts:169-182 | the same store change as `UpdateAmount`: on a store whose records sit under their names, only that record's amount changes; nothing for a missing name |
| ProductDb.ToggleComplete | src/db/index.ts:184-198 | the same store change as `ToggleComplete`: on a store whose records sit under their names, only that record's flag changes, to `!b`; nothing for a missing name |
| ProductDb.DeleteProduct | src/db/index.ts:200-202 | removes only that key from `items` |
| ProductDb.Completed | src/db/index.ts:207 | keeps exactly the completed products and nothing else |
| ProductDb.CompletedAppend | src/db/index.ts:207 | the filter keeps store order: filtering a concatenation filters each part |
| ProductDb.GetCompleted | src/db/index.ts:204-212 | null exactly when no stored product is completed (an empty store included), otherwise the completed ones in key order |
| Reorder.FindIndex | src/components/views/Order.tsx:77-81 | lodash `findIndex`: the first index whose element matches, -1 exactly when none does |
| Reorder.ProductIndex | src/components/views/Order.tsx:77-81 | the first position holding that product id, -1 exactly when none does |
| Reorder.CategoryIndex | src/components/views/Categories.tsx:58-62 | the first position holding that category id, -1 exactly when none does |
| Reorder.ArrayMove | src/components/views/Order.tsx:83 | same length and multiset; the moved entry sits at the target index; the others keep their relative order |
| Reorder.ArrayMoveSame | src/components/views/Order.tsx:83 | moving an entry onto its own index changes nothing |
| Reorder.ArrayMoveInverse | src/components/views/Order.tsx:83 | moving back from the target index to the source index restores the list |
| Reorder.ReindexProducts | src/components/views/Order.tsx:106-112 | same length and order; position i gets id i + 1 and every other field is unchanged |
| Reorder.ReindexedIdsArePositions | src/components/views/Order.tsx:106-112 | in a committed list, id k is found at position k - 1 |
| Reorder.ReindexIdempotent | src/components/views/Order.tsx:106-112 | renumbering a renumbered list changes nothing |
| Reorder.ReindexCategories | src/components/views/Categories.tsx:85-91 | same length and order; position i gets id i + 1 and keeps its name |
| OrderView.Order.constructor | src/components/views/Order.tsx:57-59 | the view starts with the given products, neither selected nor touched |
| OrderView.HasTarget | src/components/views/Order.tsx:64 | the `!over?.id` guard, also at src/components/views/Categories.tsx:45: a missing target and the id 0 both end a drag-end handler early; both `HandleDragEnd` contracts state their cases through it |
| OrderView.Order.AnyModifier | src/components/views/Order.tsx:178 | the update button shows when the view is touched or a preset is selected; `HandleBadgeClick` ensures it holds |
| OrderView.Order.HandleDragEnd | src/components/views/Order.tsx:61-90 | no target (missing or id 0) changes nothing; any target sets `touched`; the same id leaves the list; otherwise the dragged product moves to the target's index and the others keep their order, as a permutation |
| OrderView.Order.HandleUpdate | src/components/views/Order.tsx:105-119 | commits exactly when touched, with "Error" otherwise; the committed list is the current order with position i carrying id i + 1 and nothing else changed |
| OrderView.Order.HandleDeletePreset | src/components/views/Order.tsx:121-123 | removes only the preset stored under that name |
| OrderView.Order.HandleNewPreset | src/components/views/Order.tsx:130-152 | stores `{name, data: current list}` under the name; on success the view is no longer touched (the save form that calls it is commented out in the view) |
| OrderView.Order.HandleBadgeClick | src/components/views/Order.tsx:172-178 | the working list becomes the preset's data, `selected` is set and `touched` cleared: the update button shows, yet `HandleUpdate` refuses (the badges that call it are commented out in the view) |
| CategoriesView.Categories.constructor | src/components/views/Categories.tsx:39-40 | the view starts with the given categories, untouched |
| CategoriesView.Categories.HandleDragEnd | src/components/views/Categories.tsx:42-71 | as for products: no target changes nothing, a target sets `touched`, a different target moves the dragged category to its index as a permutation |
| CategoriesView.Categories.HandleUpdate | src/components/views/Categories.tsx:84-101 | an untouched view fails with "Error" and writes nothing; a touched one writes the renumbered categories and re-seeds the products against them; the `items` store stays keyed by name |
| CategoriesView.CommittedIdIsPosition | src/components/views/Categories.tsx:85-91 | a category looked up in a committed list carries its own 1-based position in the dragged order as id |
| CardView.Decremented | src/components/core/Card.tsx:217-223 | the minus button lowers the value by one, except below 1, where it keeps it |
| CardView.DecrementedBounds | src/components/core/Card.tsx:217-223 | never below 0 from a value of at least 0, never higher, unchanged exactly below 1 |
| CardView.DecrementUndoesIncrement | src/components/core/Card.tsx:217-241 | on a value of at least 0, minus undoes plus |
| CardView.Card.constructor | src/components/core/Card.tsx:82-87 | the card starts from its props and the mount effect stores the amount; on a store whose records sit under their names, the record under the card's name (if any) then holds the card's amount |
| CardView.Card.SetValue | src/components/core/Card.tsx:85-87 | a changed value re-runs the `UpdateAmount` effect; an unchanged one writes nothing; the store keeps agreeing with the card |
| CardView.Card.Decrement | src/components/core/Card.tsx:217-223 | the clamped decrement, stored through the effect when it changed the value |
| CardView.Card.Increment | src/components/core/Card.tsx:241 | adds 1 with no upper bound and stores the new amount |
| CardView.Card.EnterAmount | src/components/core/Card.tsx:235-237 | the typed number becomes the value, with no range check, and is stored when it changed |
| CardView.Card.HandleToggleCompleted | src/components/core/Card.tsx:95-103 | the flag flips and `ToggleComplete` gets the old flag; on a store whose records sit under their names, the record under the card's name (if any) then holds the new displayed flag, whatever it held before |
| CardView.Card.HandleDelete | src/components/core/Card.tsx:89-93 | removes only this card's record |
| CardView.ImageStem | src/components/core/Card.tsx:171-173 | the stem is `dash(lowerCase(name))`, or "undefined" for an empty name; it has no whitespace and no ASCII capital |
| CardView.BackgroundImage | src/components/core/Card.tsx:168-174 | in the `hasImg !== false` branch (the other renders the upload control and no image): a non-empty uploaded image is used as is; otherwise `url('/<stem>.jpg')` |
| CardView.FallbackPathShape | src/components/core/Card.tsx:171-173 | the fallback path has no whitespace and no ASCII capital between `/` and `.jpg` |
| CardView.LowerCaseRedundant | src/components/core/Card.tsx:171-173 | lowering the first letter before `dash` does not change the result |
| Ascii.ToLowerChar | src/utils/formatText.ts:4 | lowercases an ASCII capital and leaves every other character |
| Ascii.ToUpperChar | src/utils/firstLetter.ts:4 | uppercases an ASCII small letter and leaves every other character |
| Ascii.ToLower | src/utils/formatText.ts:4 | `toLowerCase` applied to every character |
| Ascii.ToLowerSpec | src/utils/formatText.ts:4 | no capital survives, whitespace stays where it was, and lowercasing twice is lowercasing once |
| FormatText.DropSpaces | src/utils/formatText.ts:4 | a suffix of the text that does not start with whitespace |
| FormatText.DropSpacesDropsSpace | src/utils/formatText.ts:4 | only whitespace is dropped |
| FormatText.CollapseLeavesNoSpace | src/utils/formatText.ts:4 | no whitespace survives `replace(/\s+/g, '-')` |
| FormatText.CollapseNoSpace | src/utils/formatText.ts:4 | a text without whitespace comes back unchanged |
| FormatText.CollapseWhitespace | src/utils/formatText.ts:4 | `replace(/\s+/g, '-')`: never longer than its input and empty exactly for an empty input; its meaning is proved in `CollapseRun`, `CollapseNoSpace`, `CollapseLeavesNoSpace` and `CollapseAppend` |
| FormatText.CollapseAppend | src/utils/formatText.ts:4 | the replacement works piecewise across a boundary that does not split a run |
| FormatText.CollapseRun | src/utils/formatText.ts:4 | each maximal whitespace run becomes exactly one '-' |
| FormatText.IndexOf | src/utils/formatText.ts:4 | the first occurrence of the pattern, -1 exactly when there is none |
| FormatText.ReplaceFirst | src/utils/formatText.ts:4 | a string pattern replaces only its first occurrence; without one the text is unchanged |
| FormatText.ReplaceKeepsNoSpace | src/utils/formatText.ts:4 | replacing "%20" by '-' brings in no whitespace |
| FormatText.DashCaseSensitive | src/utils/formatText.ts:8-12 | undefined exactly for a missing or empty text; otherwise the result has no whitespace |
| FormatText.Dash | src/utils/formatText.ts:2-6 | undefined exactly for a missing or empty text; otherwise no whitespace and no ASCII capital |
| FormatText.DashIsLoweredCaseSensitive | src/utils/formatText.ts:4-10 | lowercasing the result of `dashCaseSensitive` gives `dash` |
| FormatText.CollapseLower | src/utils/formatText.ts:4 | the whitespace replacement commutes with lowercasing |
| FormatText.ReplaceLower | src/utils/formatText.ts:4 | replacing the first "%20" commutes with lowercasing |
| FormatText.DashIgnoresCase | src/utils/formatText.ts:2-6 | texts that are equal once lowercased give the same `dash` |
| FirstLetter.UpperCase | src/utils/firstLetter.ts:2-7 | undefined exactly for a missing or empty text; otherwise the same length, the first character uppercased, the rest identical |
| FirstLetter.LowerCase | src/utils/firstLetter.ts:8-13 | undefined exactly for a missing or empty text; otherwise the same length, the first character lowercased, the rest identical |
| FirstLetter.UpperCaseIdempotent | src/utils/firstLetter.ts:4 | `upperCase(upperCase(s)) = upperCase(s)` |
| FirstLetter.LowerCaseIdempotent | src/utils/firstLetter.ts:10 | `lowerCase(lowerCase(s)) = lowerCase(s)` |

## Left out

- The IndexedDB machinery is not modelled: opening the database, upgrades, transactions and promises. Every store call is one atomic step.
- The seeding routines start their writes inside `map` without awaiting them. The model performs those writes one after another in list order. Interleavings and partial failures are not modelled.
- Storage failures are not modelled. The `try`/`catch` blocks that rethrow "Failed to update amount", "Failed to delete", "Failed to delete products" or "Failed to toggle" therefore have no error path here.
- `Store.ObjectStore.GetAll`: the key order compares strings character by character. IndexedDB compares UTF-16 code units, so keys outside the Basic Multilingual Plane may be ordered differently.
- `OrderView.Order.HandleDragEnd`: requires both ids to occur in the list when a real move happens. lodash `findIndex` can return -1, and dnd-kit then splices at a negative index. That library behaviour is not modelled.
- `CategoriesView.Categories.HandleDragEnd`: the same requirement, for the same reason.
- `OrderView.Order.HandleUpdate`: returns the list it would hand to `updateProducts`, and `updateProducts` is not part of this model. The `refetch` and the toast after a commit are left out.
- `OrderView.Order.HandleNewPreset`: the handler itself does not await the preset write. The model joins that write with its success callback, which clears `touched`. The form `reset()` and the preset refetch are left out. The `presets` store is an `ObjectStore<Preset>`; its definition is not part of this model.
- `CardView.Card.EnterAmount`: takes an integer. `parseInt` returning NaN for a non-numeric field is not modelled, and neither are fractional amounts.
- The card's image upload (`FileReader` and `updateProductImage`) and its loading flag with its timer are left out.
- `FormatText.Dash`: whitespace and case mapping cover ASCII only. JavaScript's `\s` also matches Unicode spaces, and `toLowerCase` maps non-ASCII letters; both are left out.
- `FirstLetter.UpperCase`: the same ASCII-only restriction. Non-ASCII mappings that change length (e.g. `ß`) are left out.
- `FirstLetter.LowerCase`: the same ASCII-only restriction; its same-length promise holds for ASCII only, since `'İ'.toLowerCase()` is two code units long.
- `Experiment.UpdateAmount`: each read-modify-write helper is one uninterrupted step here. In the source, `get` and `put` are separate awaits and the card fires `updateAmount` without awaiting it, so a plus-click and a check-click on the same card can interleave and one write can overwrite the other; that last-write-wins race is not modelled, and the same holds for `Experiment.ToggleComplete`, `ProductDb.ChangeAmount` and `ProductDb.ToggleComplete`.
- Which buttons are shown is rendering and is left out. The categories view shows its update button only while touched; `CategoriesView.Categories.HandleUpdate` refuses an untouched commit in any case.
- Rendering, styling, dnd-kit sensors, react-query mutations, toasts and navigation state are left out.
