# Catalog browser core, modelled in Dafny

The application is an Angular catalog of design patterns and principles,
organised in sections (Angular patterns, classic GoF patterns, SOLID, GRASP,
clean code, frontend architecture, reactive principles, plus an architecture
page). This project models the parts of it that carry logic:

- the `PatternItem` record and the per-section data files that turn JSON
  entries into records, joining code-snippet line arrays with `'\n'`
  (`Snippet`, `Catalog`, `CatalogData`);
- the seven detail pages, each resolving its record with
  `DATA.find(p => p.id === routeId) ?? null` (`Detail`);
- the lazy lesson loader, a cache and an in-flight flag set in front of the
  static section registry (`LessonLoader`, a class);
- the list page's view model: distinct categories, the selected category and
  the filtered items (`PatternList`, a class over pure functions);
- the global loading counter (`LoadingState`, a class), the cookie-consent
  service with storage as a string map (`CookieConsent`, a class), the
  `starsArray` helper (`Stars`) and the loading overlay's `ariaLabel`
  (`LoadingOverlay`).

JSON content is not part of this model: each section's JSON is a parameter,
a sequence of `RawEntry`. TypeScript's `null`/`undefined` are `Option.None`;
a thrown exception is `Result.Failure`.

## Model

| member | source | states |
|---|---|---|
| Wrappers.Truthy | src/app/shared/components/pattern-list/pattern-list.component.ts:34-35 | the truthiness test on a nullable string (`cat ?` here, `msg ?` in the loading overlay): null and "" are falsy, any non-empty string is truthy |
| Snippet.Join | src/app/features/patterns/patterns.data.ts:6-7 | `lines.join('\n')` starts with the first line |
| Snippet.JoinNewlines | src/app/features/clean-code/clean-code-principles.data.ts:6-7 | when no line holds a newline, the joined text holds exactly one newline fewer than there are lines |
| Snippet.SplitJoin | src/app/features/patterns/patterns.data.ts:6-7 | splitting a joined snippet on newlines gives back its lines, for one or more lines none of which holds a newline |
| Snippet.JoinSplit | src/app/features/reactive-principles/reactive-principles.data.ts:6-7 | joining the newline-separated pieces of any text gives the text back |
| Snippet.JoinOfNoLinesOrOneLine | src/app/features/frontend-architecture/frontend-architecture-principles.data.ts:6 | no lines join to "", one line joins to itself, so [] and [""] are indistinguishable after the join |
| Snippet.JoinLength | src/app/features/solid/solid-principles.data.ts:6 | a joined snippet's length is the sum of its line lengths plus one per gap |
| CatalogData.JoinOptional | src/app/features/clean-code/clean-code-principles.data.ts:6-7 | `lines?.join('\n')` is absent exactly when the lines are absent, and splits back into them for one or more lines none of which holds a newline |
| CatalogData.ToItem | src/app/features/patterns/patterns.data.ts:5-7 | the spread copies id, name, category, both descriptions, letter and rating unchanged; the snippets are the joined lines or absent |
| CatalogData.NormalizeAll | src/app/features/patterns/patterns.data.ts:4 | one record per JSON entry, same length, the i-th record built from the i-th entry |
| CatalogData.Patterns | src/app/features/patterns/patterns.data.ts:4-8 | `PATTERNS` has one record per entry in order, with `exampleTs` and `exampleHtml` joined |
| CatalogData.ClassicPatterns | src/app/features/classic-patterns/classic-patterns.data.ts:4-8 | `CLASSIC_PATTERNS` keeps length and order, joins `exampleTs` and copies `rating` verbatim |
| CatalogData.ReactivePrinciples | src/app/features/reactive-principles/reactive-principles.data.ts:4-8 | `REACTIVE_PRINCIPLES` keeps length and order and joins both snippets |
| CatalogData.FrontendArchPrinciples | src/app/features/frontend-architecture/frontend-architecture-principles.data.ts:4-7 | `FRONTEND_ARCH_PRINCIPLES` keeps length and order and rewrites only `exampleTs` |
| CatalogData.CleanCodePrinciples | src/app/features/clean-code/clean-code-principles.data.ts:4-8 | `CLEAN_CODE_PRINCIPLES` keeps length and order and joins both snippets |
| CatalogData.SolidPrinciples | src/app/features/solid/solid-principles.data.ts:4-7 | `SOLID_PRINCIPLES` keeps length and order, rewrites only `exampleTs` and copies `letter` |
| CatalogData.GraspPatterns | src/app/features/grasp/grasp-patterns.data.ts:4-7 | `GRASP_PATTERNS` keeps length and order and rewrites only `exampleTs` |
| CatalogData.ConformsIffRawConforms | src/app/shared/models/pattern-item.model.ts:23-26 | a record has a rating in 1..5 and a letter in S, O, L, I, D exactly when its JSON entry did: nothing is checked on load |
| CatalogData.ClassicRatingIsNotChecked | src/app/features/classic-patterns/classic-patterns.data.ts:6 | an entry with rating 9 yields a classic record outside the declared rating range |
| CatalogData.IdsCarryOver | src/app/features/grasp/grasp-patterns.data.ts:5 | some JSON entry has id x exactly when some normalised record has id x |
| CatalogData.SnippetsRecoverable | src/app/shared/models/pattern-item.model.ts:18-19 | each record's `exampleTs` splits back into the JSON lines it was joined from, for one or more lines none of which holds a newline |
| Detail.Matches | src/app/features/patterns/pattern-detail.component.ts:21 | `p.id === routeId` never holds for a null route id |
| Detail.Find | src/app/features/patterns/pattern-detail.component.ts:21 | the result is the record at the first position whose id equals the route id, and none exactly when no record matches |
| Detail.AbsentIdResolvesToNull | src/app/features/frontend-architecture/frontend-architecture-principle-detail.component.ts:21 | a route without an id resolves to null |
| Detail.FirstRecordResolves | src/app/features/patterns/pattern-detail.component.spec.ts:32-37 | the first record's id resolves to the first record |
| Detail.EarliestDuplicateWins | src/app/features/clean-code/clean-code-principle-detail.component.ts:21 | with duplicate ids the earliest record is returned |
| Detail.NoNormalisation | src/app/features/classic-patterns/classic-pattern-detail.component.ts:23 | an id equal to no record's id (even up to case or spaces) resolves to null |
| Detail.FindOverSection | src/app/features/grasp/grasp-pattern-detail.component.ts:21 | over a normalised section, a record is found exactly when some JSON entry has the id, and it is the record at the first position whose id matches |
| Detail.PatternsDetailItem | src/app/features/patterns/pattern-detail.component.ts:21 | the patterns detail item: found iff some JSON entry has the route id, and then it is the `PATTERNS` record at the first position whose id matches |
| Detail.ClassicPatternDetailItem | src/app/features/classic-patterns/classic-pattern-detail.component.ts:23 | the same over `CLASSIC_PATTERNS` |
| Detail.ReactivePrincipleDetailItem | src/app/features/reactive-principles/reactive-principle-detail.component.ts:22 | the same over `REACTIVE_PRINCIPLES` |
| Detail.FrontendArchitecturePrincipleDetailItem | src/app/features/frontend-architecture/frontend-architecture-principle-detail.component.ts:21 | the same over `FRONTEND_ARCH_PRINCIPLES` |
| Detail.CleanCodePrincipleDetailItem | src/app/features/clean-code/clean-code-principle-detail.component.ts:21 | the same over `CLEAN_CODE_PRINCIPLES` |
| Detail.SolidPrincipleDetailItem | src/app/features/solid/solid-principle-detail.component.ts:21 | the same over `SOLID_PRINCIPLES` |
| Detail.GraspPatternDetailItem | src/app/features/grasp/grasp-pattern-detail.component.ts:21 | the same over `GRASP_PATTERNS` |
| LessonLoader.KeysAreDistinct | src/app/shared/services/lazy-lesson-loader.service.ts:41-50 | the eight section keys are distinct strings, each one of the literal union's names |
| LessonLoader.SectionData | src/app/shared/services/lazy-lesson-loader.service.ts:30-39 | each section's registry entry has one record per entry of that section's JSON, in order, each the entry normalised as its data file does (both snippets or `exampleTs` only); architecture has none |
| LessonLoader.Registry | src/app/shared/services/lazy-lesson-loader.service.ts:30-39 | `dataMap` has an entry for every section, that section's records, and the architecture entry is empty |
| LessonLoader.LazyLessonLoader.constructor | src/app/shared/services/lazy-lesson-loader.service.ts:27-28 | the cache starts empty and no key is loading |
| LessonLoader.LazyLessonLoader.Begin | src/app/shared/services/lazy-lesson-loader.service.ts:53-58 | a cache hit returns the cached list and changes neither cache nor flags; a miss flags the key and nothing else |
| LessonLoader.LazyLessonLoader.Settle | src/app/shared/services/lazy-lesson-loader.service.ts:60-73 | on completion the registry list is cached and returned; on a throw the cache is unchanged; either way exactly this key's flag is cleared |
| LessonLoader.SectionKeysAreKeys | src/app/shared/services/lazy-lesson-loader.service.ts:41-50 | every name of the literal union is some section's key |
| LessonLoader.LazyLessonLoader.IsLoading | src/app/shared/services/lazy-lesson-loader.service.ts:76-78 | any string may be asked, and only section keys are ever reported loading |
| LessonLoader.LazyLessonLoader.LoadLessons | src/app/shared/services/lazy-lesson-loader.service.ts:41-74 | the whole call: hit returns the cache unchanged, miss ends with the key unflagged and the registry list cached and returned |
| LessonLoader.LoadTwice | src/app/shared/services/lazy-lesson-loader.service.ts:53-55 | after one successful load, the next load returns the identical registry list whatever its suspended step would do, and the two calls together leave the cache holding that list and only this key's flag cleared |
| PatternList.Distinct | src/app/shared/components/pattern-list/pattern-list.component.ts:27 | `Array.from(new Set(xs))` has no duplicates and holds exactly the values of xs |
| PatternList.DistinctKeepsFirstOccurrenceOrder | src/app/shared/components/pattern-list/pattern-list.component.ts:27 | the distinct values are ordered by where each first occurs |
| PatternList.CategoriesExample | src/app/shared/components/pattern-list/pattern-list.component.ts:26-28 | categories A, B, A, C give A, B, C |
| PatternList.Filter | src/app/shared/components/pattern-list/pattern-list.component.ts:35 | the filtered list is no longer than the items and holds exactly the items of the category |
| PatternList.FilterAppend | src/app/shared/components/pattern-list/pattern-list.component.spec.ts:102-120 | filtering distributes over concatenation, so relative order is kept |
| PatternList.FilterCounts | src/app/shared/components/pattern-list/pattern-list.component.spec.ts:114-119 | each matching item occurs as often as in the items; no other item occurs |
| PatternList.FilterPicksInOrder | src/app/shared/components/pattern-list/pattern-list.component.ts:35 | the filtered list is the subsequence of the items at exactly the positions whose category matches, in increasing order |
| PatternList.NoMatchFiltersToEmpty | src/app/shared/components/pattern-list/pattern-list.component.spec.ts:122-136 | a category no item has filters to the empty list |
| PatternList.CategoryList | src/app/shared/components/pattern-list/pattern-list.component.ts:27 | the i-th category is the i-th item's category |
| PatternList.PatternListComponent.constructor | src/app/shared/components/pattern-list/pattern-list.component.ts:30 | the selection starts as null |
| PatternList.PatternListComponent.Categories | src/app/shared/components/pattern-list/pattern-list.component.ts:26-28 | no duplicates, a string is a category iff some item has it, and the categories are ordered by where each first occurs among the items |
| PatternList.PatternListComponent.FilteredItems | src/app/shared/components/pattern-list/pattern-list.component.ts:33-36 | null or "" gives the items unchanged; otherwise exactly the items of the selected category, each as often as it occurs, at their positions in increasing order; never longer |
| PatternList.PatternListComponent.SelectCategory | src/app/shared/components/pattern-list/pattern-list.component.ts:39-41 | the selection becomes exactly the argument, null included, and the items do not change |
| LoadingState.Next | src/app/shared/utils/loading-state.service.ts:9-15 | start adds one; stop is `Math.max(0, count - 1)` |
| LoadingState.ReplayStarts | src/app/shared/utils/loading-state.service.spec.ts:23-27 | n starts raise the count by exactly n |
| LoadingState.ReplayStops | src/app/shared/utils/loading-state.service.spec.ts:47-51 | k stops lower the count by k, saturating at zero |
| LoadingState.StartsThenStops | src/app/shared/utils/loading-state.service.spec.ts:55-71 | from idle, n starts then k stops leave it loading iff k < n |
| LoadingState.LoadingStateService.constructor | src/app/shared/utils/loading-state.service.ts:5-7 | the count starts at 0, not loading |
| LoadingState.LoadingStateService.IsLoading | src/app/shared/utils/loading-state.service.ts:7 | while loading, a stop retires one pending operation; when not loading, the count is zero and a stop changes nothing |
| LoadingState.LoadingStateService.Start | src/app/shared/utils/loading-state.service.ts:9-11 | the count grows by one and the service is loading |
| LoadingState.LoadingStateService.Stop | src/app/shared/utils/loading-state.service.ts:13-15 | the count shrinks by one, never below zero |
| CookieConsent.LoadConsent | src/app/shared/utils/cookie-consent.service.ts:18-24 | the stored non-empty value under 'cookie-consent' if storage exists, otherwise 'pending' |
| CookieConsent.ReloadReadsLastWrite | src/app/shared/utils/cookie-consent.service.spec.ts:99-110 | a non-empty value written under the key is what a new service starts in |
| CookieConsent.StoredValueIsNotValidated | src/app/shared/utils/cookie-consent.service.ts:23 | a stored string outside the three states is taken as it is |
| CookieConsent.LastChoiceWins | src/app/shared/utils/cookie-consent.service.spec.ts:71-97 | after any sequence of accept and reject calls the state is set by the last one |
| CookieConsent.CookieConsentService.constructor | src/app/shared/utils/cookie-consent.service.ts:16 | the initial state is read from storage |
| CookieConsent.CookieConsentService.LoadAnalytics | src/app/shared/utils/cookie-consent.service.ts:41-44 | the script is injected once per call when a DOM exists, and nothing else changes |
| CookieConsent.CookieConsentService.Accept | src/app/shared/utils/cookie-consent.service.ts:26-32 | state 'accepted', written under the key (only that key), analytics injected, a reload sees 'accepted' |
| CookieConsent.CookieConsentService.Reject | src/app/shared/utils/cookie-consent.service.ts:34-39 | state 'rejected', written under the key (only that key), no analytics, a reload sees 'rejected' |
| CookieConsent.CookieConsentService.InitializeIfConsented | src/app/shared/utils/cookie-consent.service.ts:66-70 | analytics is injected only when the state is 'accepted' |
| Stars.Indices | src/app/shared/utils/stars.util.ts:9 | the map callback `(_, i) => i` fills positions `0 .. n - 1` with their own index |
| Stars.StarsArray | src/app/shared/utils/stars.util.ts:8-10 | a RangeError exactly when the rating exceeds 2^32 - 1, the largest array length; otherwise the length is the rating (zero for a negative one) and element i is i |
| Stars.HugeRatingThrows | src/app/shared/utils/stars.util.ts:9 | a rating of 2^32 throws, a rating of 2^32 - 1 does not |
| Stars.StarsIncreasingAndBounded | src/app/shared/utils/stars.util.ts:9 | strictly increasing, every element in [0, rating) |
| Stars.NoStarsForZero | src/app/shared/utils/stars.util.spec.ts:5-9 | rating 0 returns the empty array |
| LoadingOverlay.AriaLabel | src/app/shared/components/loading-overlay/loading-overlay.component.ts:32-35 | the title is a prefix; without a non-empty message the label is the title; with one it is title, ': ', message |
| LoadingOverlay.LabelShowsMessage | src/app/shared/components/loading-overlay/loading-overlay.component.ts:34 | the label equals the title iff there is no non-empty message |
| LoadingOverlay.DefaultLabel | src/app/shared/components/loading-overlay/loading-overlay.component.ts:28-30 | by default the overlay is closed and labelled 'Loading' |
| LoadingOverlay.LabelFollowsInputs | src/app/shared/components/loading-overlay/loading-overlay.component.spec.ts:95-104 | setting a message recomputes the label as title, ': ', message |

## Left out

- The `setTimeout(0)` suspension in `loadLessons` and overlapping loads of one key: a load is the two sequential steps `Begin` and `Settle`; the parameter `completed` says whether the suspended step returned or threw. Nothing in that step can throw in the code as written: the timer promise only resolves, and neither the registry lookup nor the cache write throws. So `completed` is always true in the running program, and the false branch, which settles with `Failure(LoadFailed)`, exists only to state that the `finally` block clears the flag on every path.
- Unknown section keys: `loadLessons` accepts only the eight names of its literal union type, so the code has no unknown-section error path and neither does the model.
- LoadLessons: the cached list is the very array object of the section's data file, shared by every caller and every detail page; the model returns a value, so this aliasing is not captured (no code mutates the array).
- Storage failures: reading `localStorage` and calling `getItem`/`setItem` can throw (blocked storage, exceeded quota); storage is either a map or absent here, so a throwing storage is not modelled.
- Angular signals and `computed`: signal state is a plain field, computed values are functions of the fields.
- The JSON content files: each section's content is a parameter. Sections that join only `exampleTs` (classic, frontend architecture, SOLID, GRASP) are required to carry no `exampleHtml` at all. A line array there would not type-check. A JSON string there would be copied verbatim into the record by the spread, but the entry type holds only line arrays, so that case is not expressible.
- `loadAnalytics` script injection and `gtag` setup: counted as `analyticsLoads`, guarded by whether a DOM exists.
- The route parameter lookup `paramMap.get('id')` and the Angular router: the route id is a parameter, `None` when absent.
- StarsArray: a fractional rating is not modelled; ratings are integers here.
- Templates, styles, the list wrapper components, the cookie banner, the shared detail component, the loading interceptor, the architecture page and its data, and the application configuration and routes: they hold no logic beyond wiring.
