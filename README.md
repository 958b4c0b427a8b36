# Job sites: a verified model of the client-side data layer

The application is a browser inventory tracker. Users create job sites, pick
categories for them, and browse and edit a per-category list of items. All
state lives in one browser storage entry, `localStorage["jobSites"]`, which
holds the whole list of job sites. This project models the data logic inside
the three React components that read and write that entry. It proves what
each handler does to the component state and to the stored list.

- `storage.dfy` (module `Storage`): the storage entry as an abstract cell
  `Slot` holding `Option<seq<JobSite>>`. `None` is an absent entry, and
  `Load` reads an absent entry as the empty list.
- `job_sites.dfy` (module `JobSites`, `src/components/JobSiteList.js`): the
  landing page. It covers the case-insensitive duplicate-name check, the
  count-based id (`length + 1`) and the append, and the name filter. It also
  covers the mount effect that loads the list and the effect that writes the
  list back only when it is non-empty. The page is the class `JobSiteList`.
- `inventory.dfy` (module `Inventory`, `src/components/InventoryDashboard.js`):
  the per-site page. It covers the seed-row generator and the item search.
  It covers replacing a row by id and the write-back of one category of one
  site into the stored list. It also covers the page's view state
  (selected category, full rows, shown rows, item being edited). The page is
  the class `Dashboard`.
- `create_form.dfy` (module `CreateForm`, `src/components/CreateJobSitePage.js`):
  the creation dialog's form state. It covers the vocabularies, field
  updates, category selection (split on `,`) and category deletion. It also
  covers validity and the save that hands the form on and resets it. The
  dialog is the class `JobSiteForm`.
- `records.dfy`, `text.dfy`, `seqs.dfy`, `wrappers.dfy`: the shared records,
  and stand-ins for `toLowerCase`, `includes`, `split`, `String(n)` and
  `Array.prototype.filter`. The filter comes with its subsequence and
  multiplicity lemmas.

Each React handler is one method on its component's class. The method's
`modifies` clause names exactly the state fields the handler sets. Pure
expressions in the handlers are functions: `some`, `filter`, `map` and
`find`. Lemmas state their properties.

The random source of the seed generator is a parameter: five draws, each in
[0, 100), and the quantity of row `i` is draw `i` plus one. A quantity edited
in the dialog is stored as the typed text (`Quantity.Typed`). That is why
`String(quantity)` is `QuantityText`.

Some behaviours of the code worth stating plainly, all modelled as written:

- A malformed stored value is not read as an empty list: `JSON.parse` throws
  on it (`JobSiteList.js:31`, `InventoryDashboard.js:52`), and `|| []` only
  covers an absent entry. The model has no malformed values.
- An empty list never clears the entry (`JobSiteList.js:35-39`).
- A save whose row id is not found still writes the category into the site
  and rewrites the whole stored list. A save for an unknown site id also
  rewrites the list, and an absent entry becomes `[]`
  (`InventoryDashboard.js:117-137`). `SaveEdit` states exactly this.
- The statuses are the strings "Completed", "In Progress" and "On Hold".
- Search narrowing (`SearchMonotone`) holds for any term contained in the
  longer one, so it covers prefixes.

## Model

| member | source | states |
|---|---|---|
| `Storage.Load` | src/components/JobSiteList.js:31 | an absent entry reads as the empty list; a present one as the stored list |
| `JobSites.CreateSpec` | src/components/JobSiteList.js:44-57 | creation is rejected iff some existing name equals the new name after lower-casing both; otherwise exactly one site is appended with the form's name, categories and status, id `length + 1` and no `categoriesData`, and the earlier sites keep their order |
| `JobSites.SequentialIdsUnique` | src/components/JobSiteList.js:54 | ids that are 1..n in order are pairwise different |
| `JobSites.CreateKeepsIdsSequential` | src/components/JobSiteList.js:54-56 | if the ids are 1..n, after an accepted creation they are 1..n+1 |
| `JobSites.CreateKeepsNamesDistinct` | src/components/JobSiteList.js:45-56 | if no two names are equal case-insensitively before an accepted creation, none are after it |
| `JobSites.FilterByNameSpec` | src/components/JobSiteList.js:63-65 | the filtered list is a subsequence of the list and holds exactly the sites whose lower-cased name contains the lower-cased query, each as often as in the list |
| `JobSites.FilterByNameEmptyQuery` | src/components/JobSiteList.js:63-65 | an empty query lists every site |
| `JobSites.FilterByNameNarrows` | src/components/JobSiteList.js:63-65 | if query `q1` occurs in `q2`, the list for `q2` is a subsequence of the list for `q1` |
| `JobSites.CreateScenario` | src/components/JobSiteList.js:44-56 | from an empty list, "Site A" gets id 1, and "site a" is then rejected as a duplicate |
| `JobSites.JobSiteList.constructor` | src/components/JobSiteList.js:24-28 | the page starts with no sites, an empty query, and an empty message of type "info" |
| `JobSites.JobSiteList.LoadSaved` | src/components/JobSiteList.js:30-33 | the mount effect sets the list to the stored list; an absent entry gives the empty list |
| `JobSites.JobSiteList.PersistIfNonEmpty` | src/components/JobSiteList.js:35-39 | a non-empty list overwrites the entry with the whole list; an empty list leaves the entry as it was |
| `JobSites.JobSiteList.Save` | src/components/JobSiteList.js:44-57 | a duplicate name leaves the list and sets the error message and type "error"; any other name appends the new site and leaves the message; the list's id and distinct-name invariants are preserved |
| `JobSites.JobSiteList.SetSearchQuery` | src/components/JobSiteList.js:84 | the search field sets the query |
| `JobSites.JobSiteList.Filtered` | src/components/JobSiteList.js:63-65 | every shown site is in the list, and its lower-cased name contains the lower-cased query |
| `CreateForm.FindOption` | src/components/CreateJobSitePage.js:127 | a category value has an option iff it is one of SidewalkShed, Scaffold and Shoring, and that option carries the value |
| `CreateForm.CategoryVocabulary` | src/components/CreateJobSitePage.js:9-13 | the category values are exactly {SidewalkShed, Scaffold, Shoring}, pairwise distinct |
| `CreateForm.StatusVocabulary` | src/components/CreateJobSitePage.js:201 | the statuses are exactly {Completed, In Progress, On Hold}, pairwise distinct |
| `CreateForm.DeleteCategoryExact` | src/components/CreateJobSitePage.js:29-34 | deleting `c` removes every occurrence of `c`, keeps every other category as often as before, and keeps their order |
| `CreateForm.DeleteCategoryIdempotent` | src/components/CreateJobSitePage.js:29-34 | deleting the same category twice is deleting it once |
| `CreateForm.DeleteUnselected` | src/components/CreateJobSitePage.js:29-34 | deleting a category that is not selected changes nothing |
| `CreateForm.SelectedCategoriesJoined` | src/components/CreateJobSitePage.js:24 | a comma-joined select value splits into pieces that join back to it, one more piece than there are commas, none holding a comma |
| `CreateForm.AlertText` | src/components/CreateJobSitePage.js:43 | a non-empty `message` is shown as given; an absent or empty one shows "Please fill out all the fields!" |
| `CreateForm.ResetFormInvalid` | src/components/CreateJobSitePage.js:39 | the reset form is not valid |
| `CreateForm.DeleteOnlyCategoryInvalidates` | src/components/CreateJobSitePage.js:29-50 | deleting the only selected category value makes the form invalid |
| `CreateForm.JobSiteForm.constructor` | src/components/CreateJobSitePage.js:6 | the form starts empty |
| `CreateForm.JobSiteForm.InputChange` | src/components/CreateJobSitePage.js:15-18 | only the named field (name, or status through the status select) changes; the other fields stay |
| `CreateForm.JobSiteForm.CategoryChange` | src/components/CreateJobSitePage.js:20-25 | the categories become the split string or the given array; name and status stay |
| `CreateForm.JobSiteForm.DeleteCategory` | src/components/CreateJobSitePage.js:29-34 | the categories lose every `c`, keep the others in order, and afterwards `c` is not selected |
| `CreateForm.JobSiteForm.Save` | src/components/CreateJobSitePage.js:36-45 | a valid form (name, at least one category, status) is handed on and reset to empty; an invalid one is not handed on, raises the alert and stays unchanged |
| `Inventory.SeedItemsShape` | src/components/InventoryDashboard.js:26-37 | the seed rows are five rows with ids 1..5 in order, item, description and notes templated on the category and the row number, and quantity between 1 and 100 |
| `Inventory.GenerateDummyData` | src/components/InventoryDashboard.js:26-38 | the loop produces exactly the seed rows for the category and the draws |
| `Inventory.SearchSpec` | src/components/InventoryDashboard.js:80-92 | the search result is a subsequence of the full rows and holds exactly the rows whose item, description, notes or quantity text contains the lower-cased term, each as often as in the rows |
| `Inventory.SearchEmptyTerm` | src/components/InventoryDashboard.js:83-90 | an empty term keeps every row |
| `Inventory.SearchMonotone` | src/components/InventoryDashboard.js:83-90 | if `s1` occurs in `s2`, the rows found for `s2` are a subsequence of those found for `s1` |
| `Inventory.SearchIdempotent` | src/components/InventoryDashboard.js:80-92 | searching a search result again for the same term changes nothing |
| `Inventory.ReplaceByIdSpec` | src/components/InventoryDashboard.js:117 | row replacement keeps the length, the ids and every row with another id, and turns every row with the edited id into the edited row |
| `Inventory.ReplaceByIdSingle` | src/components/InventoryDashboard.js:117 | with unique ids, saving an edit of row `k` changes row `k` and no other |
| `Inventory.ReplaceByIdIdempotent` | src/components/InventoryDashboard.js:117 | saving the same edit twice is saving it once |
| `Inventory.ReplaceByIdKeepsUniqueIds` | src/components/InventoryDashboard.js:117 | row replacement keeps ids unique |
| `Inventory.WriteBackSpec` | src/components/InventoryDashboard.js:122-134 | the write-back keeps the length and order of the sites and every site with another id; in a site with the id only `categoriesData[key]` changes: it becomes the rows, other keys keep theirs, a missing map counts as empty, and the other fields stay |
| `Inventory.WriteBackKeepsInvariants` | src/components/InventoryDashboard.js:123-134 | the write-back preserves sequential ids and case-insensitively distinct names |
| `Inventory.FindIndex` | src/components/InventoryDashboard.js:54 | `find` stops at the first site with the id, or there is none |
| `Inventory.FindSequential` | src/components/InventoryDashboard.js:54 | with ids 1..n, the site with id `i` is the `i`-th |
| `Inventory.CreatedSiteIsFound` | src/components/InventoryDashboard.js:54 | a site the list page just created is the one the dashboard finds by its id |
| `Inventory.WriteBackKeepsIndex` | src/components/InventoryDashboard.js:123-134 | the write-back does not move the site `find` stops at |
| `Inventory.WriteBackThenFind` | src/components/InventoryDashboard.js:122-137 | after a write-back, the site found by the same id holds the written rows under the written key |
| `Inventory.WithCategoriesData` | src/components/InventoryDashboard.js:59-62 | a missing `categoriesData` becomes the empty map, a present one is kept; nothing else changes |
| `Inventory.StoredOrSeed` | src/components/InventoryDashboard.js:65 | a category key with stored rows (even none) loads those rows; any other key loads fresh seed rows |
| `Inventory.SavedCategoryIsNotReseeded` | src/components/InventoryDashboard.js:54-66 | after a write-back, loading the same site and category gives the written rows whatever the draws |
| `Inventory.EditThenReload` | src/components/InventoryDashboard.js:115-137 | editing row `k`, saving and reloading gives the rows as before with only row `k` replaced |
| `Inventory.WithItemField` | src/components/InventoryDashboard.js:142-147 | only the named field of the item changes and it takes the typed value; the id never changes |
| `Inventory.Dashboard.constructor` | src/components/InventoryDashboard.js:43-48 | the page starts with no site, no selection, no rows and no item being edited |
| `Inventory.Dashboard.LoadSite` | src/components/InventoryDashboard.js:51-71 | a site found by id is kept with its `categoriesData` initialised, and the full and shown rows become its stored or seeded rows for the selected key; a missing site is reported and changes nothing |
| `Inventory.Dashboard.CategoryClick` | src/components/InventoryDashboard.js:73-78 | the category is selected and the full and shown rows become the loaded site's rows for it, or none |
| `Inventory.Dashboard.Search` | src/components/InventoryDashboard.js:80-93 | the shown rows become the search of the full rows, never of the previously shown rows |
| `Inventory.Dashboard.ClearCategory` | src/components/InventoryDashboard.js:95-99 | no category is selected and both row lists are empty |
| `Inventory.Dashboard.BeginEdit` | src/components/InventoryDashboard.js:105-108 | the double-clicked shown row becomes the item being edited |
| `Inventory.Dashboard.CloseEditor` | src/components/InventoryDashboard.js:110-113 | no item is being edited |
| `Inventory.Dashboard.InputChange` | src/components/InventoryDashboard.js:142-147 | only the named field of the edited item changes |
| `Inventory.Dashboard.SaveEdit` | src/components/InventoryDashboard.js:115-140 | the full rows get the edited row by id and are all shown; the whole stored list is rewritten with this site's selected category set to them; the editor closes |
| `Text.NatToStringRoundTrip` | src/components/InventoryDashboard.js:88 | the decimal text of a quantity reads back as the quantity |
| `Text.LowerIntToString` | src/components/InventoryDashboard.js:88 | lower-casing the text of a numeric quantity leaves it unchanged |
| `Inventory.CountQuantityMatches` | src/components/InventoryDashboard.js:88 | a numeric quantity matches a term exactly when the term occurs in its decimal digits |

Every `Dashboard` method also keeps `Valid()`. This means the shown rows are
always a subsequence of the full rows, and a loaded site always has a
`categoriesData` map.

## Left out

- Rendering is not modelled: JSX, MUI styling, colours beyond the option
  constants, icons, and the dialog and modal open flags (`open`,
  `messageModalOpen`, `openSelect`, `modalOpen`). The same holds for the
  dialog's `onClose` call after a save.
- `src/components/EditItemModal.js`, `src/components/MessageModal.js` and
  `src/App.js` are presentation and routing. The edits the modal triggers
  are `Dashboard.InputChange`.
- Navigation is not modelled (`handleJobSiteClick`, `handleGoBack`,
  `useNavigate`, `useParams`). `jobSiteId` is an integer given to the
  `Dashboard` constructor.
- JSON serialisation is not modelled. The entry holds values, so a malformed
  stored value, on which `JSON.parse` would throw, has no counterpart.
- `Math.random` is replaced by the `draws` parameter.
- React scheduling is not modelled: effect order, batching, and the re-run of
  the load effect whenever `selectedCategory` changes. That happens after
  `handleCategoryClick`, and also after `handleClearCategory`, where the
  effect refills `data` and `filteredData` with the stored or seed rows
  under the key "null" (`InventoryDashboard.js:71`, `96`). Calling
  `Dashboard.LoadSite` after the handler gives that combined step.
  Each handler and effect is one atomic method. One consequence is
  faithfully kept: `SaveEdit` does not refresh `jobSite`, so a later
  `CategoryClick` reads the rows as they were when the site was loaded.
- Unicode case folding is not modelled. `Lower` folds ASCII letters only.
- Dashboard.CategoryClick: requires a loaded site. The category buttons are
  rendered only for a loaded site, and the code would throw without one.
- Dashboard.InputChange and Dashboard.SaveEdit: require an item being
  edited. The edit dialog is open only after a row was double-clicked.
- Dashboard.BeginEdit: takes the index of the shown row that was
  double-clicked, not an arbitrary item.
- JobSiteForm.InputChange: the only fields are the name and the status. The
  only input wired to `handleInputChange` is the name field, and the status
  select sets `status` the same way inline.
