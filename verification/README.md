# Deployment dashboard: in-memory collection logic

This project models the small layer of collection logic inside a browser
dashboard that tracks deployed platforms, the projects they belong to, and
a catalogue of components:

- the **component store**, which keeps a list of components and a derived
  list of URNs that occur more than once, rebuilt after every mutation
  (replace all, append, replace by id, delete by id);
- the **selection store**, a map from platform id to the list of component
  ids selected for that platform, with toggle, clear and replace-all;
- the **Platforms page** handlers: create (new id = largest numeric id + 1,
  appended at the end, form reset except its project), edit (replace by id),
  delete (filter by id), and the project-name lookup with its
  "Unknown Project" fallback;
- the **Projects page** handlers: create, edit and delete as above, the
  per-project platform count and the status-to-badge mapping.

Layout, one module per file:

- `records.dfy`, module `Records`: generic list operations used by all of
  the above (filter out by key, replace by key, first match, count, next
  id), each taking the record's key as a function.
- `entities.dfy`, module `Entities`: the `Project` and `Platform` records.
- `component_store.dfy`, module `ComponentStore`: the duplicate-URN
  computation and the store class.
- `selected_components_store.dfy`, module `SelectedComponents`: toggling and
  the store class.
- `platforms_page.dfy`, module `PlatformsPage`, and `projects_page.dfy`,
  module `ProjectsPage`: the page state as classes whose fields are the
  page's state variables, and the pure lookups.

Modelling choices:

- Platform and project ids are natural numbers, because the pages read them
  with `parseInt`. Component ids and URNs are strings, because the store
  compares them as strings.
- A platform's `projectId` is `Option<nat>`. `None` stands for the empty
  string that the create form holds before the projects are loaded.
- Project status and platform type are kept as strings. In the program the
  default branch of the status mapping is unreachable: `status` is typed
  `'active' | 'pending' | 'completed'` (src/types/index.ts:5), every seed
  project is active, and both status selects offer only those three values.
  A string status lets the mapping's fallback be stated for every input.
- Timestamps are opaque strings passed in by the caller.
- The duplicate-URN computation is modelled literally: `IndexOf` for
  `indexOf`, `LaterOccurrences` for the index filter, `Dedup` for
  `[...new Set(...)]`. It is proved equal to an independent reference
  definition, `SecondOccurrences`, a left-to-right scan that emits a URN
  the moment it is met for the second time.
- The page fields and list types follow what `src/pages/Platforms.tsx` and
  `src/pages/Projects.tsx` actually read and write, not the declarations in
  `src/types/index.ts`. Those declarations give `Platform` an `environment`
  field and no `urn`, and they do not define `Component`.
- The code is followed where a stricter repository contract could be
  imagined. Deleting an absent id is a no-op, not an error. Create checks no
  foreign keys. Deleting a project leaves platforms that point to it
  dangling. Duplicate URNs are reported, never rejected.

## Model

| member | source | states |
|---|---|---|
| `Records.FilterOut` | src/store/useComponentStore.ts:37-38 | filter by id: every element with that key goes, every other one stays with its multiplicity, and an absent key changes nothing |
| `Records.FilterOutAppend` | src/pages/Platforms.tsx:83 | filtering distributes over concatenation, so the survivors keep their relative order |
| `Records.FilterOutNoDuplicates` | src/store/useSelectedComponentsStore.ts:21 | filtering a list without repeats gives a list without repeats |
| `Records.ReplaceMatching` | src/store/useComponentStore.ts:30-32 | replace by id: same length, every entry with the argument's id becomes the argument, all others unchanged and in place |
| `Records.ReplaceMatchingKeepsKeys` | src/pages/Platforms.tsx:70-72 | replacing by id leaves the sequence of ids unchanged |
| `Records.Keys` | src/store/useComponentStore.ts:19 | the mapped key list has the same length and the key of each element at its position |
| `Records.FindFirst` | src/pages/Platforms.tsx:92 | `find` returns None exactly when no element has the key, otherwise an element with the key that has no earlier match |
| `Records.FindFirstAt` | src/pages/Platforms.tsx:92 | the element found is the one at the first position holding the key |
| `Records.CountMatching` | src/pages/Projects.tsx:83 | the count is the key's multiplicity among the keys, and equals the number of elements that filtering out drops |
| `Records.MaxKey` | src/pages/Platforms.tsx:43 | `Math.max` over a non-empty list is an upper bound of all ids and is attained |
| `Records.NextId` | src/pages/Platforms.tsx:43 | the new id is greater than every existing id, and one less than it is an existing id |
| `Records.AppendNextIdKeepsKeysUnique` | src/pages/Platforms.tsx:43-53 | appending a record under the next id keeps the ids pairwise distinct |
| `Records.FilterOutKeepsKeysUnique` | src/pages/Platforms.tsx:83 | removing by id keeps the ids pairwise distinct |
| `ComponentStore.IndexOf` | src/store/useComponentStore.ts:20 | `indexOf` is -1 exactly when the value is absent, otherwise the first position holding it |
| `ComponentStore.SeenBefore` | src/store/useComponentStore.ts:20 | the filter's test `indexOf(urn) !== index` holds exactly when the URN already occurs earlier |
| `ComponentStore.LaterOccurrences` | src/store/useComponentStore.ts:19-20 | the filtered list holds exactly the URNs occurring at least twice |
| `ComponentStore.Dedup` | src/store/useComponentStore.ts:21 | `[...new Set(s)]` holds the same values as s, each once |
| `ComponentStore.SecondOccurrencesSpec` | src/store/useComponentStore.ts:19-21 | the reference scan holds exactly the URNs occurring at least twice, each once |
| `ComponentStore.DedupLaterOccurrences` | src/store/useComponentStore.ts:19-21 | on every prefix, the store's computation equals the reference scan, so duplicates come in the order of their second occurrences |
| `ComponentStore.DuplicateUrns` | src/store/useComponentStore.ts:19-21 | a URN is reported exactly when it occurs at least twice; none is reported twice; the order is that of second occurrences |
| `ComponentStore.Store.constructor` | src/store/useComponentStore.ts:15-17 | the store starts with the given components and an empty duplicate list |
| `ComponentStore.Store.SetComponents` | src/store/useComponentStore.ts:18-22 | replaces the list; the duplicate list then matches it |
| `ComponentStore.Store.AddComponent` | src/store/useComponentStore.ts:23-28 | appends the component at the end with earlier entries unchanged; the duplicate list then matches |
| `ComponentStore.Store.UpdateComponent` | src/store/useComponentStore.ts:29-36 | the list becomes the replace-by-id of the old list; the duplicate list then matches |
| `ComponentStore.Store.DeleteComponent` | src/store/useComponentStore.ts:37-42 | the list becomes the old list without the entries with that id; the duplicate list then matches |
| `ComponentStore.Store.GetDuplicateUrns` | src/store/useComponentStore.ts:43 | returns the stored duplicate list and changes nothing |
| `ComponentStore.InitialStateMayBeInconsistent` | src/store/useComponentStore.ts:16-17 | two components sharing a URN have a duplicate, so the initially empty list need not match the initial components |
| `ComponentStore.AddSecondOccurrenceReportsIt` | src/store/useComponentStore.ts:23-27 | adding a component whose URN occurs once already reports that URN, after the previously reported ones |
| `ComponentStore.DeleteAbsentIdChangesNothing` | src/store/useComponentStore.ts:37-41 | deleting an id no component has leaves the list and its duplicates unchanged |
| `SelectedComponents.Toggled` | src/store/useSelectedComponentsStore.ts:15-22 | an absent id is appended at the end; a present id loses every occurrence, and the result is the filter of the list, so the other ids keep their multiplicities and their order |
| `SelectedComponents.ToggleTwiceRestores` | src/store/useSelectedComponentsStore.ts:15-22 | toggling an absent id twice restores the list |
| `SelectedComponents.ToggleKeepsNoDuplicates` | src/store/useSelectedComponentsStore.ts:20-22 | a list without repeats has none after a toggle |
| `SelectedComponents.FirstToggleSelectsOne` | src/store/useSelectedComponentsStore.ts:14 | the first toggle on a platform without an entry yields exactly that component |
| `SelectedComponents.Store.constructor` | src/store/useSelectedComponentsStore.ts:11 | the selection map starts empty |
| `SelectedComponents.Store.ToggleComponent` | src/store/useSelectedComponentsStore.ts:12-25 | only the platform's entry changes, to the toggled list; every other platform's entry and presence stay as they were |
| `SelectedComponents.Store.SetSelectedComponents` | src/store/useSelectedComponentsStore.ts:26 | the whole map is replaced |
| `SelectedComponents.Store.ClearSelectedComponents` | src/store/useSelectedComponentsStore.ts:27-33 | the platform maps to the empty list and is a key afterwards; other entries are unchanged |
| `PlatformsPage.ProjectName` | src/pages/Platforms.tsx:91-94 | the name of the first project with the id, or "Unknown Project" when none has it |
| `PlatformsPage.Page.constructor` | src/pages/Platforms.tsx:12-25 | empty lists, no platform picked, and the form's initial values with type "HQ Server" |
| `PlatformsPage.Page.Load` | src/pages/Platforms.tsx:29-35 | loads both lists and defaults the form's project to the first project, if there is one |
| `PlatformsPage.Page.Pick` | src/pages/Platforms.tsx:128-131 | sets the picked platform to any given record and changes nothing else; it stands for a row's click, edit or delete button and for the edit dialog's setters, which change the picked record's other fields but never its id |
| `PlatformsPage.Page.CreatePlatform` | src/pages/Platforms.tsx:41-64 | appends one platform from the form under an id above every existing id, keeps existing ids unique, and resets the form except its project |
| `PlatformsPage.Page.EditPlatform` | src/pages/Platforms.tsx:66-77 | replaces by the picked platform's id, keeping length and ids; a no-op without a pick; clears the pick |
| `PlatformsPage.Page.DeletePlatform` | src/pages/Platforms.tsx:79-88 | removes exactly the platforms with the picked id, keeping order and unique ids; a no-op without a pick; clears the pick |
| `ProjectsPage.PlatformCount` | src/pages/Projects.tsx:82-84 | the number of platforms whose project is the id; zero exactly when no platform refers to it |
| `ProjectsPage.PlatformCountAppend` | src/pages/Projects.tsx:82-84 | the count of a concatenation is the sum of the counts |
| `ProjectsPage.StatusColor` | src/pages/Projects.tsx:87-94 | active gives Success, pending gives Warning, completed gives Info; the default badge is given exactly to every other status; the error badge is never given |
| `ProjectsPage.StatusColorDistinguishesKnownStatuses` | src/pages/Projects.tsx:247-249 | the three statuses the form offers get three different badges |
| `PlatformsPage.FilteredProjectNameIsUnknown` | src/pages/Platforms.tsx:91-94 | looking up an id in a project list with that id filtered out gives the "Unknown Project" label |
| `ProjectsPage.Page.constructor` | src/pages/Projects.tsx:12-23 | empty list, no project picked, form "", "", "pending", "1.0.0" |
| `ProjectsPage.Page.Load` | src/pages/Projects.tsx:27-29 | loads the project list |
| `ProjectsPage.Page.Pick` | src/pages/Projects.tsx:134-137 | sets the picked project to any given record and changes nothing else; it stands for a row's click, edit or delete button and for the edit dialog's setters, which change the picked record's other fields but never its id |
| `ProjectsPage.Page.CreateProject` | src/pages/Projects.tsx:33-55 | appends one project from the form under an id above every existing id, keeps ids unique, and resets the form to its initial values |
| `ProjectsPage.Page.EditProject` | src/pages/Projects.tsx:57-68 | replaces by the picked project's id, keeping length and ids; a no-op without a pick; clears the pick |
| `ProjectsPage.Page.DeleteProject` | src/pages/Projects.tsx:70-79 | removes exactly the projects with the picked id, keeping order and unique ids; platforms are not touched; a no-op without a pick |

## Left out

- PlatformsPage.Page.CreatePlatform and ProjectsPage.Page.CreateProject require a non-empty list. On an empty list, `Math.max()` of nothing is `-Infinity`, and the code would store the id "-Infinity". The next create then sees a non-empty list, but `parseInt("-Infinity")` is NaN, so `Math.max` gives NaN and the code stores the id "NaN" (src/pages/Platforms.tsx:43, src/pages/Projects.tsx:35); every later create stores "NaN" again, so ids repeat, and edit and delete by that id act on all of those records. The `nat` id type excludes these states, not the requires. So `Records.AppendNextIdKeepsKeysUnique` and the `old(UniqueIds()) ==> UniqueIds()` ensures of both create handlers describe the program only while no create has ever run on an empty list. JavaScript number semantics are not modelled.
- SelectedComponents.Store.ToggleComponent and SelectedComponents.FirstToggleSelectsOne treat every platform id without an entry as an empty list. The code's map is a plain JavaScript object (src/store/useSelectedComponentsStore.ts:11), so a platform id naming an inherited `Object.prototype` member such as "toString" makes `selectedComponents[platformId] || []` (line 14) yield a function, and `current.includes` (line 15) throws. Platform ids in the program are numeric strings, so this is never reached, and the model does not capture it.
- ProjectsPage.PlatformCount takes the platform list as a parameter. The code counts over the static seed list `mockPlatforms`, not over any page's state.
- ProjectsPage.StatusColor returns `Default` for unknown statuses, as the code does. The code's declared return type omits 'default'; that type mismatch has no runtime effect and is not modelled.
- The simulated loading delay (`setTimeout`) is left out. It is modelled only as the `Load` methods, called with the seed lists as parameters.
- The clock (`new Date().toISOString()`, `toLocaleDateString`) is left out. Time stamps are parameters.
- Dialog open/close flags, loading flags, table columns and all rendering are left out.
- The create form's field setters (`onChange` handlers) are left out; the form is a field that create reads and resets. The edit dialogs' setters (src/pages/Platforms.tsx:279, 292, 305, 320; src/pages/Projects.tsx:280, 293, 306, 318) are covered by `Pick`, which takes any record; the model does not express that they keep the picked id.
- The Platforms page and the Projects page each keep their own project list, both loaded from the seed list. A project deleted on the Projects page is never seen by the Platforms page, which keeps showing the deleted project's name. `PlatformsPage.FilteredProjectNameIsUnknown` is a fact about the two functions, not about the running pages.
- ComponentStore.Store.constructor takes the initial component list as a parameter. The code initialises the store from `mockComponents`, which `src/services/mockData.ts` does not export, so that initial list cannot be read from the source.
- The seed data, the HTTP client, the dashboard, the deployment matrix and the Components and Versions pages are not part of this model. The Components and Versions pages give new records the id `length + 1`, which can repeat an existing id after a delete; only the Platforms and Projects rule is modelled.
- Zustand's subscription and re-render mechanism is left out; each store is a class whose methods update its fields.
