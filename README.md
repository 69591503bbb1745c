# Launch search front-end: data access and view bookkeeping

This project models, in Dafny, the two pieces of logic in the launch-search
web front-end that do more than wire up `fetch` and the DOM:

- **Data access** (`src/lib/api.js`, module `Api` in `api.dfy`): what
  `searchLaunches` and `getLaunch` do with the decoded API response. A falsy
  response becomes `null`. A search reads `results` (an absent field counts
  as `[]`), keeps the first 50 entries (`API_MAX_RESULTS`), maps each entry
  with an id to `{id, name, status, mission}` with defaults, and drops the
  entries without an id. `getLaunch` copies six fields.
- **View bookkeeping** (`src/lib/ui.js`, module `Ui` in `ui.dfy`):
  `createSearchResults` (error item, "no results" item, or one item per
  result), the loading toggles `setLoading` / `setNotLoading`, the
  remove-then-append sequence of `searchAndRender`, and the nodes
  `renderDetails` appends, with a placeholder text for each missing field.

The DOM is abstract (module `Dom` in `dom.dfy`). A node is a text node or an
element with a tag, attributes and children, compared by value. A container
element is a `Ui.Container` object. Its `children` field is a sequence of
nodes, and its `buttonDisabled` field is the `disabled` attribute of its
search form's button. The methods change both fields in place, as the source
does.

`queryApi`'s answer is a parameter of type `Option<...>`. `None` stands for
`null`, which is what every network, status or decoding failure becomes. It
also stands for any other falsy JSON value. Each render procedure runs as one
atomic sequence: loading on, the fetch outcome, loading off, append.

Some details are easy to miss:
- When `status.name` is missing, the search `status` default is an empty
  array. It is modelled as `Api.StatusText.EmptyArray`, and the rendered
  status line prints it as `""`, as a template literal does.
- `name` and `mission` use `??`, so only a missing value takes the default
  `''`.
- The detail view uses truthiness, so an empty string also shows the
  placeholder.
- A search entry that has an id but no `status` object makes the code throw
  (src/lib/api.js:80). So does a fetched launch with no `status` or `mission`
  object (src/lib/ui.js:261, 275).
- The messages are in Icelandic.
- A missing image renders a `p.noImg` paragraph reading `Staða: Not found`.

## Model

| member | source | states |
|---|---|---|
| `Api.SearchLaunches` | src/lib/api.js:58-85 | null exactly when the fetch answered null or falsy; otherwise at most 50 summaries, every id non-empty; a payload without `results` gives an empty array, not null |
| `Api.FirstPage` | src/lib/api.js:72 | the slice keeps the first `min(50, n)` entries unchanged |
| `Api.ToSummary` | src/lib/api.js:77-82 | the defaults: id copied, `name` and `mission` `''` when absent, `status` the status name or `[]` when the name is absent |
| `Api.Normalize` | src/lib/api.js:73-84 | map-then-filter never lengthens the list, and every surviving summary has a non-empty id |
| `Api.NormalizeSingle` | src/lib/api.js:74-83 | one entry contributes its summary when its id is truthy and nothing otherwise |
| `Api.NormalizeAppend` | src/lib/api.js:73-84 | normalising a concatenation concatenates the normalised parts, so entries are processed one at a time and in order |
| `Api.NormalizeAround` | src/lib/api.js:73-84 | the output around position i is the earlier entries' output, the entry's own contribution, then the later entries' output |
| `Api.NormalizeKeeps` | src/lib/api.js:73-84 | every entry with a truthy id appears, at the position equal to the number of id-bearing entries before it |
| `Api.NormalizeOrdered` | src/lib/api.js:73-84 | entries with an id keep their relative order in the output |
| `Api.NormalizeSource` | src/lib/api.js:73-84 | every output summary is that of an id-bearing entry at its rank, so nothing else appears and entries without an id are absent |
| `Api.SearchKeeps` | src/lib/api.js:71-84 | each of the first 50 raw entries that has an id is returned, at its rank among them |
| `Api.SearchSource` | src/lib/api.js:71-84 | each returned summary comes from a raw entry at position below 50 that has an id, and summary k comes from the entry with exactly k id-bearing entries before it, so no entry is returned twice: the slice comes before the filter |
| `Api.SliceBeforeFilter` | src/lib/api.js:71-84 | fifty leading entries without an id make the result empty even when valid entries follow them |
| `Api.GetLaunch` | src/lib/api.js:94-113 | null exactly when the fetch answered null or falsy; otherwise name, status, window start and end, mission and image are those of the payload, so no other field affects the result |
| `Dom.RemoveFirst` | src/lib/ui.js:143-151 | `querySelector` then `remove()`: with no node of the class nothing changes; otherwise exactly the first such node is removed and the rest stay in order |
| `Ui.LoadingNode` | src/lib/ui.js:46 | the loading node is a node of class `loading` reading `Sæki gögn...` |
| `Ui.BackNode` | src/lib/ui.js:161-163 | the back node has class `back`, holds a link to `/`, and reads `Til baka` |
| `Ui.WithLoading` | src/lib/ui.js:43-48 | after `setLoading` a loading node is present; the old children stay as a prefix, with at most one node added |
| `Ui.WithLoadingIdempotent` | src/lib/ui.js:43-48 | applying `setLoading` twice leaves the children as applying it once |
| `Ui.WithLoadingCount` | src/lib/ui.js:43-48 | after `setLoading` there is exactly one loading node, when there was at most one before |
| `Ui.LoadingCycle` | src/lib/ui.js:43-71 | `setLoading` then `setNotLoading` leaves the children as `setNotLoading` alone would |
| `Ui.LoadingCycleClears` | src/lib/ui.js:67-71 | with at most one loading node before, the cycle leaves no loading node and every other node in order |
| `Ui.Container.SetLoading` | src/lib/ui.js:42-59 | adds a loading node only when none is found; disables the button when a form is given and leaves it alone otherwise |
| `Ui.Container.SetNotLoading` | src/lib/ui.js:66-82 | removes the first loading node; re-enables the button when a form is given |
| `Ui.Container.RemoveFirstOf` | src/lib/ui.js:143-146 | the first node of the class is removed; the button is untouched |
| `Ui.Container.Append` | src/lib/ui.js:165-166 | `appendChild` adds the node at the end |
| `Ui.StatusString` | src/lib/ui.js:116 | the status text in a template literal: the `[]` default prints as the empty string, a status name prints as itself |
| `Ui.ResultItem` | src/lib/ui.js:110-119 | one result is an `li.results_result` holding one block of three parts; the first is an `h3.result_name` whose only child is a link to `/?id=` + id labelled with the name; the second is `p.result_status` reading `🚀 ` + status; the third is `p.result_mission` reading `Mission: ` + mission; the visible text is these three in order |
| `Ui.ResultItems` | src/lib/ui.js:94-122 | one `li` per result for a non-empty list, and a single `li` for a failed or empty search |
| `Ui.ResultsList` | src/lib/ui.js:91-124 | the list is a `ul.results` that never comes out empty, and every child is an `li` |
| `Ui.ErrorDiffersFromNoResults` | src/lib/ui.js:93-107 | the failed-search list and the empty-search list differ for every query |
| `Ui.CreateSearchResults` | src/lib/ui.js:89-125 | a `ul.results` list; for null, one item `Villa við leit að ` + query; for `[]`, one item `Engar niðurstöður fyrir leit að ` + query; otherwise one item per result in order, each a link `/?id=` + id labelled with the name, `🚀 ` + status and `Mission: ` + mission |
| `Ui.SearchAndRender` | src/lib/ui.js:134-167 | with no `main` nothing changes; otherwise main's children become the replace-results sequence applied to the old children, and the button ends enabled |
| `Ui.ReplaceResults` | src/lib/ui.js:143-166 | whatever the old children, the new list and then a back node are the last two children |
| `Ui.ReplaceResultsShape` | src/lib/ui.js:142-166 | with at most one results, back and loading node before, the new children are all other nodes in their old order, then the new list, then a back node |
| `Ui.SearchSettles` | src/lib/ui.js:153-166 | after a search there is no loading node, exactly one results node and one back node, and the list sits directly before the back node at the end |
| `Ui.WindowLine` | src/lib/ui.js:247-255 | each window line reads its label (`Gluggi opnast:   ` or `Gluggi Lokast:   `) + the time when the time is truthy, else `Not found.` |
| `Ui.NameHeading` | src/lib/ui.js:261-277 | the status and mission headings read `Staða: ` or `Geimferð: ` + the name when it is truthy, else + `Not found` |
| `Ui.DescriptionLine` | src/lib/ui.js:266-283 | the status or mission description, or `Engin lýsing fannst` |
| `Ui.ImageNode` | src/lib/ui.js:287-290 | an `img` with the image as `src`, or a `noImg` paragraph reading `Staða: Not found` |
| `Ui.NotFoundParagraph` | src/lib/ui.js:219 | the error paragraph is a `p.error` reading the apology followed by the id |
| `Ui.DetailNodes` | src/lib/ui.js:218-223 | a failed fetch appends two nodes, an error paragraph then the back node; a fetched launch appends exactly its detail view, one `main` |
| `Ui.DetailView` | src/lib/ui.js:227-293 | a `main` with seven parts, in order `launch`, `timehead`, `timelist`, `allStatus`, `allMiss`, the image, and the back node last |
| `Ui.NotFoundShape` | src/lib/ui.js:218-223 | a failed detail fetch appends only an error paragraph ending in the id, then the back node; no `main` element is appended |
| `Ui.DetailViewShape` | src/lib/ui.js:227-293 | the contents of each part of the fetched launch's `main`: the `h2.launchTitle` with the name (no child when it is absent), the `Skot gluggi` heading, the two window lines, the status heading and description, the mission heading and description, the image, and the back node |
| `Ui.DetailsSettle` | src/lib/ui.js:204-223 | whatever the fetch answers, the detail view ends with no loading node; the earlier children are kept in order, followed by the appended nodes |
| `Ui.Container.RenderDetails` | src/lib/ui.js:201-296 | loading cycle without a form, so the button is untouched; then the error paragraph and back node, or the filled `main` |

## Left out

- Network I/O is not modelled. This covers `fetch`, `result.ok`, `result.json()`, the `console.warn` calls and `sleep` (src/lib/api.js:24-49). `queryApi` is represented only by its null-or-value outcome.
- Falsy JSON values are not told apart. A falsy response of any kind is `None`. A `results` field that is present but not an array is not modelled. Ids are strings, truthy when non-empty.
- URL construction with `URL` and `searchParams` is not modelled. It is a browser library. The query and id appear only in the rendered texts.
- Overlapping searches are not modelled. In the source, each awaited fetch lets another search run, and the last write wins. That is concurrency. Each call here is one atomic step.
- Browser and event wiring is not modelled: `goBack`, `attachBackButtonListener` (including its call in the detail error branch), `window.history`, `addEventListener`, `renderSearchForm` and `renderFrontpage`. These are event plumbing with no state of their own.
- `el` and `empty` (src/lib/elements.js) are not part of this model. Nodes are built directly as values.
- A launch whose `name` is absent gets a title with no child. This assumes `el` ignores an `undefined` child.
- `renderDetails` appends `main` first and fills it afterwards. The model appends the finished node, so no intermediate tree is observable.
- `Api.SearchWellFormed`: the source throws a `TypeError` when an id-bearing entry among the first 50 has no `status` object. The model makes the object's presence a precondition and does not model the exception.
- `Ui.Renderable`: likewise, the source throws when a fetched launch has no `status` or `mission` object. This is a precondition of `Ui.Container.RenderDetails`.
- `querySelector` searches all descendants, but the model searches only direct children. Each class (`loading`, `results`, `back`) is looked up only in a container where it occurs as a direct child. The detail view nests a back node inside its `main`, but no modelled lookup of `back` runs on the detail page's container.
- The model treats the search form as always having a button. `renderSearchForm` always gives it one.
- The `results == null` disjunct in `createSearchResults` (src/lib/ui.js:99) is not modelled. It cannot be reached after the earlier null check.
