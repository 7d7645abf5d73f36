# Services component: category index and view state

A Dafny model of `src/components/Services/Services.jsx`. In the original, this
component fetches a list of service records, lists their distinct categories in
first-seen order and groups the records by category. It renders an error
message, a loading spinner or one section per category, and it keeps the
active category and the detail modal in component state.

The model has three modules:

- `ServiceCatalog` (`catalog.dfy`) holds the `ServiceRecord` value type and
  `Categories`. `Categories` is the `[...new Set(data.map(s => s.category))]`
  expression, written as a function. The file also proves that this list is
  duplicate-free, that it holds exactly the categories that occur, that it is
  ordered by first occurrence, and that these three properties determine it
  uniquely.
- `CategoryGrouping` (`grouping.dfy`) holds the `servicesByCategory`
  `reduce`. `GroupByCategory` is a loop over the records that updates an
  insertion-ordered key list and a map from category to records. The file
  proves this loop against the specification functions `GroupOf` and
  `Sections`, and proves the partition properties about those functions.
  It also models the `TypeError` that the loop throws on a category that is
  an `Object.prototype` name.
- `ServicesView` (`view.dfy`) holds the component state as the class
  `ServicesComponent`, with the seven `useState` fields. It has one method per
  handler or effect, each with "nothing else changes" postconditions, and the
  function `Render`, which picks the page to show.

The network call becomes the two events `FetchSucceeded(data)` and
`FetchFailed()`. The parsed `category` query parameter becomes an input of type
`Option<string>`.

## Model

| member | source | states |
|---|---|---|
| `ServiceCatalog.Categories` | src/components/Services/Services.jsx:29-31 | the category list has no duplicates and contains a category exactly when some fetched record carries it |
| `ServiceCatalog.CategoriesFirstSeenOrder` | src/components/Services/Services.jsx:29-31 | of any two listed categories, the earlier one first occurs earlier in the fetched records (`Set` insertion order) |
| `ServiceCatalog.CategoriesIsFirstSeenList` | src/components/Services/Services.jsx:29-31 | the category list is a first-seen list: distinct, complete and ordered by first occurrence |
| `ServiceCatalog.CategoriesUnique` | src/components/Services/Services.jsx:29-31 | any sequence that is distinct, complete and ordered by first occurrence equals the category list, so these properties fully specify the `Set` dedup |
| `ServiceCatalog.FirstIndex` | src/components/Services/Services.jsx:30 | the position of a category's first record: that record has the category and no earlier record does |
| `CategoryGrouping.GroupOf` | src/components/Services/Services.jsx:54-57 | a group holds only records from the input with the group's category, and it is empty exactly when no record has that category |
| `CategoryGrouping.GroupOfAppend` | src/components/Services/Services.jsx:55 | grouping commutes with concatenation, so records keep their relative order from `services` inside each group |
| `CategoryGrouping.RecordInOwnGroup` | src/components/Services/Services.jsx:55 | every record is in the group keyed by its own category |
| `CategoryGrouping.SectionSizesSumToLength` | src/components/Services/Services.jsx:54-57 | the sizes of all groups add up to the number of records |
| `CategoryGrouping.SectionsPartition` | src/components/Services/Services.jsx:54-57 | the section keys, in order, are the category list; no section is empty; each section holds only records of its category; and every record appears under its category |
| `CategoryGrouping.Sections` | src/components/Services/Services.jsx:96 | the sections the page iterates over: one per category, in the order of the category list, each holding that category's group |
| `CategoryGrouping.Entries` | src/components/Services/Services.jsx:96 | `Object.entries` of the accumulator: one entry per key, in key-insertion order, each holding the array stored under that key |
| `CategoryGrouping.FirstInheritedKey` | src/components/Services/Services.jsx:54-55 | the result is absent exactly when no record's category is an `Object.prototype` name; otherwise it is the category of the first record that has such a name |
| `CategoryGrouping.GroupByCategory` | src/components/Services/Services.jsx:54-57 | the reduce throws exactly when some category is an `Object.prototype` name, and it throws on the first such record; otherwise the key order equals the category list, each key's array is that category's group, and the entries equal `Sections` |
| `CategoryGrouping.InheritedKeyThrows` | src/components/Services/Services.jsx:55 | a record whose category is any `Object.prototype` name makes the grouping throw on that name when no earlier record does, whatever comes after it |
| `CategoryGrouping.ConstructorKeyThrows` | src/components/Services/Services.jsx:55 | the instance for "constructor": such a record makes the grouping throw on "constructor" when no earlier record does, whatever comes after it |
| `ServiceCatalog.ExampleCategories` | src/components/Services/Services.jsx:29-31 | two "Food" records followed by one "Drinks" record give the categories ["Food", "Drinks"] |
| `CategoryGrouping.ExampleGroups` | src/components/Services/Services.jsx:54-57 | the same records give a "Food" group of the two "Food" records in order and a "Drinks" group of the other |
| `CategoryGrouping.ExampleSections` | src/components/Services/Services.jsx:54-57 | the same records give a "Food" section of two records followed by a "Drinks" section of one |
| `CategoryGrouping.ExampleNotInherited` | src/components/Services/Services.jsx:55 | "Food" and "Drinks" are not `Object.prototype` names, so these records do not make the grouping throw |
| `ServicesView.SelectedCategory` | src/components/Services/Services.jsx:22 | the selection is "All" exactly when the parameter is absent, empty or "All"; otherwise it is the parameter's value |
| `ServicesView.ServicesComponent.constructor` | src/components/Services/Services.jsx:12-18 | the initial state: no services, loading, no error, no active service, modal closed, no categories, active category "All" |
| `ServicesView.ServicesComponent.FetchSucceeded` | src/components/Services/Services.jsx:28-33 | services become the data and categories its category list; loading ends; error and all other fields are unchanged |
| `ServicesView.ServicesComponent.FetchFailed` | src/components/Services/Services.jsx:34-36 | error becomes "Failed to load services." and loading ends; services and all other fields are unchanged; whenever the services hold no inherited category, and in particular whenever the request fails while still loading, every render is exactly that message |
| `ServicesView.ServicesComponent.SyncCategory` | src/components/Services/Services.jsx:43-47 | a selection other than "All" becomes the active category; otherwise the active category is kept; nothing else changes |
| `ServicesView.ServicesComponent.HandleCardClick` | src/components/Services/Services.jsx:49-52 | the active service becomes the clicked record and the modal opens; nothing else changes |
| `ServicesView.ServicesComponent.CloseModal` | src/components/Services/Services.jsx:113 | the modal closes; the active service and every other field are unchanged |
| `ServicesView.ExampleRun` | src/components/Services/Services.jsx:12-116 | in the worked run, the final page shows the slider with ["Food", "Drinks"], "Drinks" active, and the two sections; the modal is closed, still holds the "Drinks" record, and receives "Drinks" as the selected category |
| `ServicesView.ServicesComponent.ScrollToCategory` | src/components/Services/Services.jsx:60 | the active category becomes the chosen one; nothing else changes |
| `ServicesView.ServicesComponent.Render` | src/components/Services/Services.jsx:74-116 | the render throws exactly when the grouping throws, and names the same key; otherwise the error view is shown exactly when the error is truthy (set and non-empty), and it shows that error; otherwise the slider gets the categories and active category, the modal gets the open flag, the active service and the query selection, and the content is the spinner exactly while loading and the grouped sections afterwards |

Every handler also keeps `ServicesComponent.Valid()`. This invariant states
four things:

- the categories are always the category list of the services;
- an open modal always has an active service;
- while loading, there are no services and no error;
- an error, once set, is the fixed message.

## Notes on the source's behaviour

- The modal receives `selectedCategory`, the value derived from the query
  (line 115). It does not receive `activeCategory`.
- `queryParams.get('category') || 'All'` turns an empty parameter into
  "All" as well as an absent one (line 22).
- The sync effect does not check that the selected category is one of the
  fetched categories (lines 44-45).
- While loading, the page keeps its category slider and modal. Only the
  content area is a spinner (lines 78-116). Only an error replaces the whole
  page.
- The accumulator is a plain `{}` (line 57). For a category that names an
  `Object.prototype` member (for example "constructor", "toString" or
  "__proto__"), `acc[category] || []` yields the inherited value, which is
  truthy. `.push` is then not a function, so the render throws a
  `TypeError`, and nothing in this file catches it. The grouping runs on
  every render, before the `if (error)` test (lines 54 and 74). The model
  lists the twelve standard `Object.prototype` names, and `Render` returns
  `RenderThrows` in this case.
- `if (error)` tests truthiness (line 74). `Render` tests the same, so an
  empty error string would not show the error view.

## Left out

- The `axios.post` request, its `async`/`await` lifecycle, and the unmount
  race. Only the request's two outcomes are modelled, as the events
  `FetchSucceeded` and `FetchFailed`.
- A response whose `data` is not an array of records. In the code,
  `setServices` stores the bad value (line 28) before `.map` throws (line
  30), and the catch then sets the error. The next render throws at line 54,
  before the `if (error)` test at line 74. For a `data` that is `null` or
  `undefined`, line 54 fails reading `reduce` of it. For any other non-array
  `data`, `services.reduce` is not a function. For a `null` element, line 55
  reads `category` of `null`. So the error message never shows in these
  cases: only a rejected request (line 27) reaches the error view. The model
  types the data as `seq<ServiceRecord>` and does not model these throws.
- A record whose `category` is not a string. The model assumes that every
  record has a string category (`ServiceRecord.category: string`). In the
  code, an array element without the field, with `category: null` or
  `category: 5`, or a primitive element such as `1`, does not throw at line
  30. The `Set` then keeps the raw value (`undefined`, `null`, `5`), while
  `acc[service.category]` at line 55 stores the record under the string key
  (`"undefined"`, `"null"`, `"5"`). So the slider's categories and the
  section keys of line 96 can differ, and `5` and `"5"` give two categories
  but one section. The model's proof that the group keys equal the category
  list holds only for string categories.
- React hook scheduling, effect ordering and re-rendering. Each handler and
  effect is one atomic method, and the caller chooses the order.
- `useLocation` and `URLSearchParams` parsing. The parsed parameter is an
  input.
- The DOM lookup and smooth scrolling in `scrollToCategory` (lines 61-71).
  These are DOM I/O with floating-point positions. Only the state update is
  modelled.
- CloseModal: `onClose={setIsModalOpen}` passes the modal's own argument.
  The modal component's source is not part of this model. CloseModal models
  the close callback as setting the flag to false.
- JSX, styling, and the `ServiceCard`, `ServiceModal`, `CategorySlider`,
  `Spinner`, `FooterFlex` and `Example` components. A page is modelled only
  by the props and content it hands to them.
- The `Object.entries` ordering of integer-like keys. The groups are an
  explicit insertion-ordered key list.
- The `key={services.id}` attribute on line 97. It only affects rendering.
- What React does once a render has thrown: the component tree unmounts.
  `RenderThrows` records only that the render threw, and on which key.
  Names that other scripts add to `Object.prototype` are not modelled.
