# Portfolio site logic, modelled in Dafny

The site is a static portfolio. Three small pieces of it have behaviour worth
stating. This project models them and proves properties about them.

- **Order-documentation page** (`app/order-technical-documentation/page.tsx`).
  - The component state is the class `DocumentationPage.Page`. It holds the active
    navigation section, the three expanded-index lists (decisions, infrastructure
    layers, design patterns), the record from layer index to expanded subcategory
    indices, which section elements are mounted, and the active section the subscribed
    scroll listener closed over.
  - Each setter call is a method that reassigns one field and states that every other
    field is unchanged.
  - The `includes ? filter : append` toggle and the record update of
    `toggleSubcategory` are pure functions (module `ExpandedSet`).
  - The scroll-spy loop is `Page.HandleScroll`, a `while` loop with an early `break`.
    It is proved against the first-hit search `ScrollSpy.FirstHit`. The section offsets
    are an input of each scroll event, because the page reads them from the live
    elements every time and they move when an accordion opens or closes.
  - The listener compares against the `activeSection` of the render that subscribed
    it. That value is a field of its own, refreshed by `Page.RerunScrollEffect`, so the
    window between a `setActiveSection` and the effect's re-run is modelled.
  - The item count of the infrastructure badges is a pair of left folds
    (module `Infrastructure`). It is proved equal to the number of items the page
    displays whenever every layer renders, and equal to 19 for the page's own data.
    A layer with neither subcategories nor items cannot render (`layer.items.map`
    throws); its badge reads 0.
- **Link-preview middleware** (`functions/_middleware.js`).
  - `onRequest` is a pure function (module `Middleware`). The origin response and its
    body text are inputs, and the request carries its URL and parsed pathname.
  - `String.prototype.replace` with a string pattern and a string replacement is
    modelled in `JsString` as ECMAScript defines it: only the first occurrence is
    replaced, and the replacement is expanded as a template (`$$`, `$&`, `` $` ``, `$'`).
    See the finding below.
  - `Middleware.OnRequestAsWritten` is the code as written.
  - `Middleware.OnRequest` is the evidently intended splice. Its properties are proved.
  - Both return `None` where the Fetch standard's `Response` constructor throws: an HTML
    response whose status is outside 200..599 or is a null-body status (204, 205, 304),
    since the middleware always passes a string body.
- **Sidebar icon** (`components/sidebar-project-item.tsx`).
  - `getProjectIcon` is a `switch` over string labels. It is kept as its table of case
    clauses, so the fall-through from `"tmux-config"` into `"nvim-config"` runs as
    JavaScript runs it (module `ProjectIcon`).

Files: `Options.dfy`, `ExpandedSet.dfy`, `Infrastructure.dfy`, `ScrollSpy.dfy`,
`DocumentationPage.dfy`, `JsString.dfy`, `Middleware.dfy`, `ProjectIcon.dfy`.

## Model

| member | source | states |
|---|---|---|
| ExpandedSet.Without | app/order-technical-documentation/page.tsx:761-762 | `filter(i => i !== x)`: `x` is gone; every other index stays exactly when it was there; the multiset is the old one with `x`'s count set to zero |
| ExpandedSet.Toggle | app/order-technical-documentation/page.tsx:759-765 | an index is in the result exactly when its membership differs from "it is the toggled index" (membership flips for `x` only) |
| ExpandedSet.WithoutConcat | app/order-technical-documentation/page.tsx:761-762 | filtering distributes over concatenation, so the surviving indices keep their relative order |
| ExpandedSet.WithoutAbsent | app/order-technical-documentation/page.tsx:761-762 | filtering an absent index returns the list unchanged |
| ExpandedSet.WithoutNoDup | app/order-technical-documentation/page.tsx:761-762 | filtering keeps a duplicate-free list duplicate-free |
| ExpandedSet.ToggleAbsentAppends | app/order-technical-documentation/page.tsx:763 | toggling an absent index appends it at the end; the old list is an unchanged prefix |
| ExpandedSet.TogglePresentRemoves | app/order-technical-documentation/page.tsx:761-762 | toggling a present index removes every occurrence, gives the filtered list, and shortens the list; a duplicate-free list loses exactly one element |
| ExpandedSet.ToggleNoDup | app/order-technical-documentation/page.tsx:759-773 | a toggle keeps a duplicate-free list duplicate-free |
| ExpandedSet.ToggleTwiceAbsent | app/order-technical-documentation/page.tsx:759-765 | toggling an absent index twice gives back the same list |
| ExpandedSet.ToggleTwicePresent | app/order-technical-documentation/page.tsx:759-765 | toggling a present index twice restores membership; for a duplicate-free list it restores the multiset |
| ExpandedSet.Entry | app/order-technical-documentation/page.tsx:777 | `prev[layerIdx] \|\| []`: a layer missing from the record reads as the empty list |
| ExpandedSet.ToggleEntry | app/order-technical-documentation/page.tsx:775-785 | the keys become the old keys plus `layerIdx`; every other key keeps its list; in `layerIdx`'s list only `subIdx` flips membership |
| ExpandedSet.ToggleEntryFlipsOne | app/order-technical-documentation/page.tsx:775-785 | as read through `?.includes(subIdx) ?? false`, exactly the named (layer, subcategory) pair changes |
| ExpandedSet.IsSubExpanded | app/order-technical-documentation/page.tsx:1222 | `expandedSubcategories[layerIdx]?.includes(subIdx) ?? false` agrees with reading the entry through `\|\| []`: a pair is expanded exactly when the index is in the layer's list, so an untouched layer reads as collapsed |
| ExpandedSet.EmptyAllCollapsed | app/order-technical-documentation/page.tsx:1222 | in the empty record every subcategory reads as collapsed |
| Infrastructure.SubcategoryFoldCounts | app/order-technical-documentation/page.tsx:1155 | the inner reduce adds the number of items the subcategories display to its seed |
| Infrastructure.SubcategoryFold | app/order-technical-documentation/page.tsx:1155 | the inner reduce never goes below its seed (its exact value is Infrastructure.SubcategoryFoldCounts) |
| Infrastructure.LayerCountIsItems | app/order-technical-documentation/page.tsx:1204-1207 | a layer's badge (subcategory sum when subcategories exist, else `items?.length \|\| 0`) is the number of items it displays; a layer the page cannot render (neither list) still shows 0 |
| Infrastructure.LayerCount | app/order-technical-documentation/page.tsx:1154-1157 | a layer adds a non-negative count (its exact value is Infrastructure.LayerCountIsItems) |
| Infrastructure.LayerItems | app/order-technical-documentation/page.tsx:1219-1274 | a layer displays items exactly when it has subcategories or items; without either, `layer.items.map` throws |
| Infrastructure.LayersFoldCounts | app/order-technical-documentation/page.tsx:1153-1158 | for layers that all render, the outer left-to-right reduce adds every layer's displayed item count to its seed |
| Infrastructure.LayersFold | app/order-technical-documentation/page.tsx:1153-1158 | the outer reduce never goes below its seed (its exact value is Infrastructure.LayersFoldCounts) |
| Infrastructure.AllItems | app/order-technical-documentation/page.tsx:1219-1274 | the catalogue renders exactly when every layer renders |
| Infrastructure.HeaderCountIsItems | app/order-technical-documentation/page.tsx:1153-1158 | the header badge is the number of items on the page, for every catalogue whose layers all render |
| Infrastructure.HeaderCount | app/order-technical-documentation/page.tsx:1153-1158 | the header badge is never negative (its exact value is Infrastructure.HeaderCountIsItems) |
| Infrastructure.HeaderCountConcat | app/order-technical-documentation/page.tsx:1153-1158 | the header badge is additive over the layer list, whatever the data |
| Infrastructure.StaticCounts | app/order-technical-documentation/page.tsx:171-254 | every one of the page's five layers renders; their badges read 6, 3, 4, 2, 4 and the header reads 19 |
| ScrollSpy.FirstHit | app/order-technical-documentation/page.tsx:730-743 | the result is the index of an item whose section is mounted and, as laid out at the event, covers the probe, and no earlier item's section does; with no result no item's section does |
| ScrollSpy.NextActive | app/order-technical-documentation/page.tsx:728-744 | with a listener that closed over the current section, a change of the active section lands only on a listed item whose mounted section covers the probe |
| ScrollSpy.ListenerResult | app/order-technical-documentation/page.tsx:736-741 | a listener never sets the section it closed over, and any change it makes lands on a listed item whose mounted section covers the probe |
| ScrollSpy.NextActiveIsFirstHit | app/order-technical-documentation/page.tsx:728-744 | the new active section is the first item, in navigation order, whose section covers the probe |
| ScrollSpy.NoHitKeepsActive | app/order-technical-documentation/page.tsx:728-744 | when no section covers the probe the active section is unchanged |
| ScrollSpy.UnregisteredSkipped | app/order-technical-documentation/page.tsx:732-733 | an item with no element (absent or `null`) never becomes active through the scroll-spy, whatever the offsets |
| ScrollSpy.DisjointAnyHitWins | app/order-technical-documentation/page.tsx:736-741 | when mounted sections do not overlap, any item whose section covers the probe is the one chosen |
| ScrollSpy.FreshListenerIsNextActive | app/order-technical-documentation/page.tsx:727-749 | a listener subscribed after the last change of `activeSection` gives the first-hit rule exactly |
| ScrollSpy.StaleListenerKeepsNewer | app/order-technical-documentation/page.tsx:738-741 | a listener that closed over an older section, on a first hit in that older section, leaves the newer section active, against the first-hit rule |
| DocumentationPage.Page.constructor | app/order-technical-documentation/page.tsx:717-724 | the initial state: "overview" active and closed over by the first listener; decisions, layers and patterns `[0]`; empty subcategory record, so every subcategory is collapsed; no section mounted; the lists are duplicate-free |
| DocumentationPage.Page.AttachSection | app/order-technical-documentation/page.tsx:878 | a section's ref callback marks exactly that id as mounted (or, on `null`, unmounted) and changes nothing else |
| DocumentationPage.Page.SubExpanded | app/order-technical-documentation/page.tsx:1222 | a subcategory reads as expanded only in a layer that has an entry in the record |
| DocumentationPage.Page.ScrollToSection | app/order-technical-documentation/page.tsx:751-757 | the clicked id becomes active whether or not an element is registered for it; nothing else changes |
| DocumentationPage.Page.ToggleDecision | app/order-technical-documentation/page.tsx:759-765 | the decisions list becomes its toggle; other fields unchanged; a duplicate-free state stays duplicate-free; the list grows by one when the index was absent and, in a duplicate-free state, shrinks by exactly one when it was present |
| DocumentationPage.Page.ToggleInfrastructure | app/order-technical-documentation/page.tsx:767-773 | the layers list becomes its toggle; other fields unchanged; a duplicate-free state stays duplicate-free; the list grows by one when the index was absent and, in a duplicate-free state, shrinks by exactly one when it was present |
| DocumentationPage.Page.TogglePattern | app/order-technical-documentation/page.tsx:1047 | the patterns list becomes its toggle; other fields unchanged; a duplicate-free state stays duplicate-free; the list grows by one when the index was absent and, in a duplicate-free state, shrinks by exactly one when it was present |
| DocumentationPage.Page.ToggleSubcategory | app/order-technical-documentation/page.tsx:775-785 | the record becomes its entry toggle; exactly the named pair flips as displayed; other fields unchanged; a duplicate-free state stays duplicate-free |
| DocumentationPage.Page.HandleScroll | app/order-technical-documentation/page.tsx:728-744 | with the offsets read at the event and the probe `scrollY + 170`, the loop leaves `ScrollSpy.ListenerResult` active: the first hit unless it is the section the listener closed over, the old section when nothing hits; no other field changes |
| DocumentationPage.Page.RerunScrollEffect | app/order-technical-documentation/page.tsx:746-749 | after the `[activeSection]` effect re-runs, the listener closes over the current active section; nothing else changes |
| JsString.IndexOf | functions/_middleware.js:50-53 | the result is an occurrence of the pattern with no earlier one; with no result there is no occurrence |
| JsString.Includes | functions/_middleware.js:12 | `includes` holds exactly when the pattern occurs somewhere |
| JsString.IndexFrom | functions/_middleware.js:50-53 | the result is an occurrence at or after `from` with none between; with no result there is none at or after `from` |
| JsString.Substitute | functions/_middleware.js:50-53 | the template expansion; its properties are JsString.SubstituteNoDollar, JsString.SubstituteLiteralPrefix and JsString.SubstituteLiteralSuffix |
| JsString.ReplaceFirst | functions/_middleware.js:50-53 | without an occurrence the text is returned unchanged; with one, the text before the first occurrence is kept as a prefix |
| JsString.InsertAfterFirst | functions/_middleware.js:50-53 | without an occurrence the text is returned unchanged; otherwise it grows by exactly the block |
| JsString.Reference | functions/_middleware.js:50-53 | `$c` in a replacement is a pattern exactly for `c` among `$`, `&`, backtick and quote |
| JsString.SubstituteNoDollar | functions/_middleware.js:50-53 | a replacement without `$` expands to itself |
| JsString.SubstituteLiteralPrefix | functions/_middleware.js:50-53 | a `$`-free prefix of a replacement passes through the expansion unchanged |
| JsString.SubstituteLiteralSuffix | functions/_middleware.js:50-53 | a `$`-free suffix not starting with a pattern character passes through unchanged |
| JsString.InsertAfterFirstAt | functions/_middleware.js:50-53 | with the first `<head>` at `i`: the length grows by the block; the text up to and after the tag is kept; the block sits right after it |
| JsString.ReplaceIsInsert | functions/_middleware.js:50-53 | `replace(pat, pat + block)` with a `$`-free replacement is the splice of `block` after the first `pat` |
| JsString.InsertedBlockIncluded | functions/_middleware.js:50-53 | whatever the block contains, the spliced text contains too |
| JsString.ReplaceExpandsMiddle | functions/_middleware.js:50-53 | a replacement whose `$`s all lie in a middle part: only that part is expanded, against the first match |
| Middleware.OnRequest | functions/_middleware.js:11-60 | a response whose `content-type` header is missing or does not include `text/html` is returned untouched; an HTML response gets a response exactly when the `Response` constructor accepts its status; a response built keeps status, statusText and headers; without a literal `<head>` its body is unchanged |
| Middleware.OnRequestAsWritten | functions/_middleware.js:11-60 | the same gate, constructor failure, pass-through and no-`<head>` behaviour for the code as written |
| Middleware.GateOnHeaders | functions/_middleware.js:11-14 | the gate read through `Headers.get` passes exactly the responses that have a `content-type` header including `text/html` |
| Middleware.IsHtml | functions/_middleware.js:12 | the gate lets a response through exactly when the header is present and includes `text/html`; the falsy `""` needs no case of its own |
| Middleware.MetaFor | functions/_middleware.js:18-27 | only the Zapenu or the default texts are ever chosen (which one is Middleware.ZapenuExactly) |
| Middleware.MetaTags | functions/_middleware.js:32-44 | eleven tags, the seventh being `og:url` with the given URL |
| Middleware.RenderTag | functions/_middleware.js:33-43 | one `<meta>` line's element; its properties are Middleware.TagInBlock and Middleware.TextAroundUrlDollarFree |
| Middleware.MetaBlock | functions/_middleware.js:32-44 | the template literal; its properties are Middleware.TagInBlock and Middleware.BlockAroundUrl |
| Middleware.ZapenuExactly | functions/_middleware.js:18-27 | the Zapenu title and description are chosen exactly when the pathname is `/zapenu` |
| Middleware.NearMissesGetDefault | functions/_middleware.js:18 | `/zapenu/`, `/Zapenu` and `/` get the default texts |
| Middleware.OgUrlIsRequestUrl | functions/_middleware.js:39 | `og:url` carries the request URL and is the only tag with that key |
| Middleware.TitlesAndDescriptions | functions/_middleware.js:32-44 | the chosen title is in both `og:title` and `twitter:title`, the chosen description in both description tags |
| Middleware.SameImageEverywhere | functions/_middleware.js:29-43 | both image tags carry the one image constant, whatever the page |
| Middleware.TagInBlock | functions/_middleware.js:32-44 | every tag of the list appears, rendered, in the injected block |
| Middleware.OnRequestSplices | functions/_middleware.js:50-60 | for an accepted status, with the first `<head>` at `i`, the output is the input with the block inserted right after it, text before and after preserved, length grown by the block |
| Middleware.OnRequestAdvertises | functions/_middleware.js:32-60 | an HTML page with an accepted status and a `<head>` comes out carrying the `og:url` tag of the request URL and the title and description tags of its path |
| Middleware.BlockAroundUrl | functions/_middleware.js:32-44 | the replacement is a fixed text, the request URL, and a fixed text |
| Middleware.TemplateTextDollarFree | functions/_middleware.js:21-44 | for both pages, the fixed text around the URL contains no `$` |
| Middleware.AsWrittenExpandsUrl | functions/_middleware.js:50-53 | the code as written answers like the intended middleware given the URL after template expansion |
| Middleware.ReplacedBody | functions/_middleware.js:50-53 | the body as written is the splice of the block built from the expanded URL |
| Middleware.AsWrittenAgreesWithoutDollar | functions/_middleware.js:50-53 | for a URL without `$` the code as written and the intended splice agree on every response |
| Middleware.BodyLengthTracksUrl | functions/_middleware.js:39-53 | the body grows with the URL one for one: the URL is the only varying part of the block |
| Middleware.DollarUrlMisreported | functions/_middleware.js:39-53 | for a request URL ending in `?ref=$$`, the code as written advertises the URL ending in `?ref=$` and differs from the intended output |
| ProjectIcon.FindLabel | components/sidebar-project-item.tsx:12-21 | the switch enters at the first clause whose label equals the id; with no result no label equals it |
| ProjectIcon.RunFrom | components/sidebar-project-item.tsx:19-23 | from the entry clause, control runs to the first clause that returns; past the last case it reaches `default` |
| ProjectIcon.Switch | components/sidebar-project-item.tsx:12-24 | an id with no case label gets the default; every result is the default or the icon some clause returns |
| ProjectIcon.GetProjectIcon | components/sidebar-project-item.tsx:11-25 | only an id with a case label gets an icon other than Code (the per-id values are ProjectIcon.ExplicitCases and ProjectIcon.SettingsOnlyForConfigs) |
| ProjectIcon.ExplicitCases | components/sidebar-project-item.tsx:13-21 | zapenu gives Server, deploy-bot gives Cloud, fittracker gives Code, and tmux-config (by fall-through) and nvim-config give Settings |
| ProjectIcon.UnknownIdIsCode | components/sidebar-project-item.tsx:22-23 | any id without a case label gives Code, so the mapping is total |
| ProjectIcon.SettingsOnlyForConfigs | components/sidebar-project-item.tsx:19-21 | the Settings icon is given exactly to tmux-config and nvim-config |
| ProjectIcon.ProjectIdsHaveCases | components/sidebar-project-item.tsx:11-25 | every project id of the static list (`lib/projects-data.ts` lines 5, 23, 42, 61, 80) hits an explicit case, never the default |

## Left out

- JSX rendering, CSS class computation, transitions and layout: presentation only.
- The scroll-lock effects of the diagram accordions and cards: DOM style changes, `setTimeout` and `window.scrollTo` are browser effects.
- The diagram wrapper `components/ui/mermaid-diagram.tsx` and the diagram text embedded in the page: calls into an external library that is not part of this model.
- The scroll-spy of `app/zapenu/page.tsx`: it is driven by the browser's `IntersectionObserver`.
- `scrollIntoView` in `scrollToSection`: a browser effect; only the state change is modelled.
- The event loop and React's scheduling: each scroll event is one call of `HandleScroll`, and each re-run of the `[activeSection]` effect is one call of `RerunScrollEffect`. When React re-runs the effect (after the render that follows a `setActiveSection`) is left to the caller, so every interleaving can be expressed but none is imposed.
- DocumentationPage.Page.HandleScroll: the section offsets at an event are an arbitrary input. How they follow from the open accordions (`max-h-[3000px]` against `max-h-0`), the 300 ms transitions and the rendered diagrams is layout and is not modelled.
- `showOrderServiceComponents` and `isMobileMenuOpen`: plain boolean switches that drive presentation only.
- Scroll offsets and `scrollY` are whole numbers here; browsers may report fractional values.
- `await next()` and `await response.text()` in the middleware: the origin response and its body text are inputs.
- Middleware.OnRequest and Middleware.OnRequestAsWritten: the `Response` constructor's TypeError for a statusText that is not a valid reason-phrase is not modelled, because the statusText comes from a response the runtime already built.
- URL parsing: a request carries its URL and its parsed `pathname` as given values.
- Response headers: a map keyed by lower-case name stands for `Headers.get`, which matches names case-insensitively. Multi-valued headers joined with commas are not modelled.
- The static content records (`lib/cv-data.ts`, `lib/projects-data.ts` beyond the project ids, `lib/tech-stack.ts`) and the other pages and components: content and presentation.
- ExpandedSet.Toggle and the toggles of DocumentationPage.Page: indices are unbounded integers, not IEEE doubles. The page only passes small array indices.

## Findings

| source | as written | input that shows it | evidently intended | confidence | as-written member | corrected member |
|---|---|---|---|---|---|---|
| functions/_middleware.js:50-53 | The replacement given to `replace` is a string, and JavaScript expands a string replacement as a template. The request URL inside it is therefore expanded too: `$$` becomes `$`, `$&` becomes `<head>`, `` $` `` and `$'` become the page text before and after the match. The URL parser does not percent-encode `$`. | a request for `https://alejotamayo.com/?ref=$$` on a page `<html><head></head></html>`: the `og:url` tag reads `https://alejotamayo.com/?ref=$` | the block is inserted verbatim, so `og:url` is exactly the request URL (for example by passing a function as the replacement) | high, not executed | Middleware.OnRequestAsWritten (counterexample Middleware.DollarUrlMisreported; Middleware.AsWrittenExpandsUrl characterises it) | Middleware.OnRequest (Middleware.OgUrlIsRequestUrl, Middleware.OnRequestSplices, Middleware.OnRequestAdvertises) |
