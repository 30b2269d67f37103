# A verified model of the GitHub Player portfolio

The ahussainNCL.github.io site is a Next.js/React portfolio. It shows the owner's GitHub
repositories as a "music player": each repository is a track. The home page renders a
carousel, an album grid, a search box and language filter buttons. The code also holds
a full-screen player component whose clock ticks once a second, mounted but never
displayed, and a command palette component that no page mounts. This project models
the logic of all of these in Dafny and proves properties of it:

- **Shared store** (`store.dfy`, lib/store.ts). The repository and player-state records.
  The five jotai atoms are the fields of one `AppStore` object, which the component
  methods overwrite.
- **Filter** (`repo_filter.dfy`). The search-and-language filter that four components
  repeat word for word. Languages for the buttons are in `search_filter.dfy`.
- **Music player** (`music_player.dfy`). Next and previous with wrap-around, the
  once-a-second tick updater, the current-track choice, and the handlers that write the
  shared player record and centered index.
- **Carousel** (`project_carousel.dfy`). Swipe, drag and keyboard navigation, the view,
  and opening the player.
- **Album grid** (`album_grid.dfy`). The cards and the index each card dispatches.
- **Home page** (`home.dfy`, app/page.tsx). The page's own now-playing project, its
  timer, and next/previous over the unfiltered list found by id. The page is a class
  over its local state plus a reference to the store.
- **Command palette** (`command_palette.dfy`):
  - recent and popular lists;
  - the language grouping `reduce`, written as a loop and proved against a reference
    definition;
  - the stable ranking of the groups by size;
  - the palette search and the palette's own state.
- **Utilities** (`utils.dfy`, lib/utils.ts):
  - `formatTime`;
  - the 32-bit string hash;
  - `generateGradient`;
  - the two ordered keyword tables behind `getProjectIcon` and `generateThumbnailDesign`.
- **GitHub loader** (`github.dfy`, lib/github.ts). The README cleaning, the record
  shaping, `fetchRepositories`' choice between fetched data and the built-in list, and
  the built-in list itself.

Supporting modules: `wrappers.dfy` (Option), `js.dfy` (JavaScript's truncating `%`,
ToInt32, out-of-range array reads), `text.dfy` (ASCII lower-casing and `includes`) and
`sequences.dfy` (subsequences and a generic order-keeping filter).

Network responses, the environment token and timer firings are parameters. Each fetch is
modelled by the outcome it can have, e.g. `ListThrew | ListNotOk(status) | ListOk(entries)`.

Behaviour of the code that the model makes explicit:

- **Page timer.** The page's timer (app/page.tsx:53) resets only once the time is *at
  least* the duration, so it shows `3:00` for one tick (`Home.PageShowsTotalOnce`). The
  player's timer resets one tick earlier and never shows it (`MusicPlayer.TickNeverShowsTotal`).
- **Stale indices.** No code clamps a stale centered index when a filter shrinks the
  list: the carousel keeps it and its render then fails (`ProjectCarousel.NarrowedFilterFaults`,
  `ProjectCarousel.LanguageFilterNarrows`). The fault is latent in the shipped page:
  only the hidden `SearchFilter` writes the store's query and language, so the store's
  filtered list is always the full list there.
- **Unreachable components.** `<MusicPlayer />` and `<SearchFilter />` are mounted only
  inside a `hidden` (`display: none`) element (app/page.tsx:445-448). Their effects run
  (components/music-player.tsx:33-40 and 42-60), but no user can reach the player's
  close, play/pause, next or previous buttons. `MusicPlayer.TogglePlay`,
  `MusicPlayer.ClosePlayer`, `MusicPlayer.NextRepo` and `MusicPlayer.PrevRepo` model
  those handlers as written. `CommandPalette` (components/command-palette.tsx:17) is
  imported by no page or layout, so nothing in `CommandPalette` is reachable on the site.
- **Sync effect wins.** The player record's `isVisible` flag is set whenever it plays,
  and while it is set the effect at components/music-player.tsx:33-40 puts the record
  back on the carousel's centered index after every index change. A click on an album
  card other than the centered one therefore leaves the player record on the centered
  card (`AlbumGrid.ClickIsOverriddenBySync`).
  The tick's move to the next track is undone the same way, so the same track restarts
  at 0 (`MusicPlayer.AdvanceUndoneWhileVisible`).
- **Page filter unused.** The page's own search box and language buttons
  (app/page.tsx:368, 402-414) write page-local state whose only reader is the page's
  `filteredRepos` (app/page.tsx:100). Nothing renders that list: the grid and carousel
  filter by the shared store's query and language, which only the hidden `SearchFilter`
  (app/page.tsx:446) writes.
  `Home.HomePage.Filtered` models this unused list as written.
- **Case in icons.** The icon label ignores case (`Utils.LabelIgnoresCase`). The default
  icon hashes the name as given, so the icon itself does not.
- **Unknown language.** A repository without a language is shaped with the language
  "Unknown" (lib/github.ts:324). "Unknown" is then offered as a filter language like any
  other.

## Model

| member | source | states |
|---|---|---|
| Text.ToLower | components/music-player.tsx:23-24 | `toLowerCase()` keeps the length and maps each character by itself |
| Text.ContainsIffOccurs | components/music-player.tsx:23-24 | `includes` holds exactly when the query sits at some offset of the text |
| Js.Rem | components/music-player.tsx:49 | JavaScript `%`: the result has the sign of the dividend, is below the divisor in magnitude, and agrees with the mathematical remainder for non-negative operands |
| Js.RemOfSuccessor | components/music-player.tsx:88 | stepping an index in -1..n-1 forward modulo n wraps to 0 only at the end |
| Js.ToInt32 | lib/utils.ts:20 | the 32-bit conversion of the bitwise operators: a signed 32-bit value congruent to its input modulo 2^32 |
| Js.ElementAt | app/page.tsx:57 | reading `a[i]` is defined exactly for in-range indices and then yields an element of `a` |
| Store.InitialPlayerState | lib/store.ts:26-32 | the initial player record: paused, hidden, time 0 of 180 seconds, index 0, and it satisfies the player invariant |
| Store.AppStore.constructor | lib/store.ts:25-35 | all atoms start at their initial values: no repositories, initial player, empty query, no language, centered index 0 |
| Store.StartPlaying | components/album-grid.tsx:24-30 | selecting a track shows and plays it from time 0 at the chosen index, keeps the duration and preserves the player invariant |
| Store.StartPlayingForgetsPrior | components/project-carousel.tsx:62-68 | the selection updater's result depends on nothing of the prior state but the duration |
| RepoFilter.FilterRepos | components/music-player.tsx:22-27 | exactly the repositories whose lower-cased name or description contains the lower-cased query and whose language equals the selected one, each as often as before, in original order |
| RepoFilter.Filtered | components/music-player.tsx:22-27 | the store's filtered list holds exactly the store's repositories that match its query and language, in order |
| RepoFilter.KeepsAllWhenUnfiltered | app/page.tsx:100-105 | an empty query with no language selected keeps every repository, in order |
| RepoFilter.FilterIgnoresQueryCase | components/project-carousel.tsx:18-23 | the filter's result does not change when the query is lower-cased first |
| RepoFilter.LanguageNarrows | components/album-grid.tsx:16-21 | selecting a language yields a subsequence of the result without one |
| SearchFilter.Languages | components/search-filter.tsx:13 | the language buttons: every non-empty language of some repository, each exactly once, never the empty string |
| SearchFilter.LanguagesSnoc | components/search-filter.tsx:13 | a repository appended to the list adds its language at the end exactly when that language is new and non-empty |
| SearchFilter.FirstWithLanguage | components/search-filter.tsx:13 | the position of the first repository with a present language: it has that language and none before it does |
| SearchFilter.LanguagesInFirstOccurrenceOrder | components/search-filter.tsx:13 | the buttons come in order of each language's first occurrence in the list (a Set iterates in insertion order) |
| SearchFilter.FirstInPrefix | components/search-filter.tsx:13 | dropping the last repository keeps every earlier first occurrence, and a language only the last repository has first occurs there |
| SearchFilter.SelectAll | components/search-filter.tsx:35 | "All" clears the selected language |
| SearchFilter.SelectLanguage | components/search-filter.tsx:47 | a language button selects exactly that language |
| SearchFilter.SetSearchQuery | components/search-filter.tsx:24 | the input writes its text into the shared query |
| MusicPlayer.NextIndex | components/music-player.tsx:88 | the next index is the successor, wrapping from the last to 0; for every non-negative index, stale ones included, it is `(i + 1) % len` and in range |
| MusicPlayer.PrevIndex | components/music-player.tsx:98 | the previous index is the predecessor, wrapping from 0 to the last, and stays in range for in-range input |
| MusicPlayer.NextPrevRoundTrip | components/music-player.tsx:87-105 | previous after next, and next after previous, return to the starting index |
| MusicPlayer.TickUpdate | components/music-player.tsx:45-57 | a tick adds one second, or on reaching the duration restarts at 0 on the next filtered index; flags and duration are kept, the player invariant and index range are preserved |
| MusicPlayer.TicksBeforeEnd | components/music-player.tsx:44-58 | before the duration is reached, k ticks add exactly k seconds and keep the index |
| MusicPlayer.TicksToEnd | components/music-player.tsx:44-58 | after exactly the remaining seconds the updater has written the next index and time 0, all else unchanged (the sync effect then resets the index, see AdvanceUndoneWhileVisible) |
| MusicPlayer.TickNeverShowsTotal | components/music-player.tsx:46-47 | the player's clock never displays the full duration |
| MusicPlayer.CurrentRepo | components/music-player.tsx:29 | the track shown is the filtered repository at the player index if in range, else the one at the centered index, else none; it is always a filtered repository |
| MusicPlayer.ShownHasTracks | components/music-player.tsx:117 | whenever the player renders, the filtered list is non-empty |
| MusicPlayer.Tick | components/music-player.tsx:44-58 | the interval callback applies the tick updater over the current filtered length and keeps the store valid |
| MusicPlayer.TogglePlay | components/music-player.tsx:83-85 | only the playing flag flips |
| MusicPlayer.NextRepo | components/music-player.tsx:87-95 | the next filtered index at time 0, and the carousel's centered index follows it |
| MusicPlayer.PrevRepo | components/music-player.tsx:97-105 | the previous filtered index at time 0, and the carousel's centered index follows it |
| MusicPlayer.ClosePlayer | components/music-player.tsx:107-109 | hides and pauses, nothing else |
| MusicPlayer.Synced | components/music-player.tsx:33-40 | the effect's result: a visible player takes the centered index, a hidden one is unchanged |
| MusicPlayer.AdvanceUndoneWhileVisible | components/music-player.tsx:33-57 | on a visible player synced to the centered index, a tick followed by the effect only adds a second or restarts the same track at 0 |
| MusicPlayer.SyncWithCentered | components/music-player.tsx:33-40 | the new player record is the effect's result: a visible player moves to the centered index; otherwise nothing changes |
| ProjectCarousel.SwipeTarget | components/project-carousel.tsx:25-31 | a left swipe moves to the next card and a right swipe to the previous one, exactly when one exists; the index moves by at most one and stays in range |
| ProjectCarousel.DragDirection | components/project-carousel.tsx:33-40 | a drag beyond 50 pixels right is a right swipe, beyond 50 left a left swipe, anything shorter nothing |
| ProjectCarousel.KeyToAction | components/project-carousel.tsx:44-55 | ArrowLeft shows the previous card, ArrowRight the next, Enter and space open the player, other keys do nothing |
| ProjectCarousel.View | components/project-carousel.tsx:78-92 | the empty state exactly for an empty list, the centered card exactly for an in-range index, otherwise a failing render |
| ProjectCarousel.NarrowedFilterFaults | components/project-carousel.tsx:90 | whenever the store's filtered list is non-empty but no longer than the centered index, the view fails |
| ProjectCarousel.LanguageFilterNarrows | components/project-carousel.tsx:18-23 | selecting a language can shrink two cards to one, so index 1 goes from a card to a failing render |
| ProjectCarousel.HandleSwipe | components/project-carousel.tsx:25-31 | the centered index becomes the swipe target over the filtered length |
| ProjectCarousel.HandleDragEnd | components/project-carousel.tsx:33-40 | a long drag swipes in its direction, a short one changes nothing |
| ProjectCarousel.OpenPlayer | components/project-carousel.tsx:61-69 | the player plays the centered card from time 0 |
| ProjectCarousel.HandleKeyDown | components/project-carousel.tsx:44-55 | arrows swipe, Enter and space open the player, other keys leave the store as it was |
| AlbumGrid.View | components/album-grid.tsx:33-58 | the empty state exactly for an empty list, otherwise one card per repository dispatching its own position |
| AlbumGrid.ClickIndicesInRange | components/album-grid.tsx:58 | every index a card dispatches lies inside the filtered list |
| AlbumGrid.HandleAlbumClick | components/album-grid.tsx:23-31 | the handler writes the clicked card's index, visible and playing, at time 0, with an index inside the filtered list |
| AlbumGrid.ClickIsOverriddenBySync | components/album-grid.tsx:23-31 | the click followed by the sync effect is the same as a click on the centered card |
| Home.FindIndexById | app/page.tsx:78 | `findIndex` by id: the first position with the current project's id, or -1 when there is none or nothing plays |
| Home.NextProjectOf | app/page.tsx:77-82 | the next project of the unfiltered list, wrapping at the end; an unknown current project gives the first; an empty list gives none |
| Home.PrevProjectOf | app/page.tsx:84-89 | the previous project, wrapping from the first to the last; an unknown current project gives none |
| Home.FindIndexOfListed | app/page.tsx:78 | with distinct ids, looking a listed project up finds its own position |
| Home.NextPrevRoundTrip | app/page.tsx:77-89 | with distinct ids, previous after next and next after previous return to the same project |
| Home.NextTime | app/page.tsx:52-61 | the page timer resets once the time is at least the duration, otherwise adds one, and stays within 0..duration |
| Home.PageShowsTotalOnce | app/page.tsx:53 | the page timer reaches the full duration for one tick before resetting |
| Home.HomePage.Filtered | app/page.tsx:100-105 | the page's filtered list holds exactly the repositories that match the page's own query and language, in order |
| Home.HomePage.Languages | app/page.tsx:108 | the page's language buttons: every non-empty language of some repository, each once |
| Home.HomePage.constructor | app/page.tsx:17-25 | nothing playing, paused, time 0 of 180 seconds, empty query, no language |
| Home.HomePage.LoadRepositories | app/page.tsx:33-45 | only an empty store is filled; then the first fetched repository, if any, becomes now-playing |
| Home.HomePage.Tick | app/page.tsx:48-65 | the timer updater on the time; on reset the next project of the unfiltered list becomes now-playing |
| Home.HomePage.HandleProjectClick | app/page.tsx:67-71 | the clicked project plays from time 0 |
| Home.HomePage.TogglePlay | app/page.tsx:73-75 | only the play flag flips |
| Home.HomePage.NextProject | app/page.tsx:77-82 | the next project from time 0, play flag kept |
| Home.HomePage.PrevProject | app/page.tsx:84-89 | the previous project from time 0, play flag kept |
| Home.HomePage.SetSearchQuery | app/page.tsx:368 | the page's search box writes its query |
| Home.HomePage.SetSelectedLanguage | app/page.tsx:402-414 | "All" and the language buttons set the page's selected language |
| CommandPalette.Take | components/command-palette.tsx:29-30 | `slice(0, n)` is the prefix of length min(length, n) |
| CommandPalette.RecentRepos | components/command-palette.tsx:29 | "Recent Projects" is a prefix of the list with min(length, 5) entries |
| CommandPalette.PopularRepos | components/command-palette.tsx:30 | exactly the repositories with more than ten stars, in list order |
| CommandPalette.StarredRepos | components/command-palette.tsx:30 | "Popular Projects": the first min(count, 5) repositories with more than ten stars, in list order |
| CommandPalette.Group | components/command-palette.tsx:31-36 | the reference definition of a language's group: exactly the repositories of that language, in list order |
| CommandPalette.GroupAppend | components/command-palette.tsx:34 | appending a repository extends exactly its own language's group |
| CommandPalette.GroupHead | components/command-palette.tsx:176 | a present language's group is non-empty and starts with the first repository of that language |
| CommandPalette.LanguageGroups | components/command-palette.tsx:31-36 | the reduce's keys are the distinct non-empty languages in first-occurrence order, and each key maps to its non-empty group |
| CommandPalette.GroupsStep | components/command-palette.tsx:32-35 | one reduce step turns the grouping of a prefix into that of the prefix plus one repository |
| CommandPalette.Entries | components/command-palette.tsx:167 | `Object.entries`: one (language, group) pair per key, in key order |
| CommandPalette.SortedPairwise | components/command-palette.tsx:168 | in the sorted entries every group is at least as large as every later one |
| CommandPalette.InsertBySize | components/command-palette.tsx:168 | one insertion step of the sort adds exactly the inserted entry |
| CommandPalette.InsertSorted | components/command-palette.tsx:168 | insertion into entries sorted by decreasing size keeps them sorted |
| CommandPalette.SortBySize | components/command-palette.tsx:168 | the sort is a permutation of the entries, sorted by decreasing group size |
| CommandPalette.InsertKeepsTies | components/command-palette.tsx:168 | insertion places an entry before the later entries of its own size |
| CommandPalette.SortKeepsTies | components/command-palette.tsx:168 | the sort is stable: entries of each size keep their key order |
| CommandPalette.RankedGroups | components/command-palette.tsx:167-169 | "Browse by Language" shows min(languages, 6) entries, a prefix of the sorted entries |
| CommandPalette.RankedAreLargest | components/command-palette.tsx:167-169 | no language left out of the ranking has a larger group than one shown |
| CommandPalette.RankedGroupsAreGroups | components/command-palette.tsx:170-177 | every shown entry is a listed language with its whole, non-empty group |
| CommandPalette.PaletteSearch | components/command-palette.tsx:206-211 | exactly the repositories whose name, description or language contains the query ignoring case, in list order |
| CommandPalette.PaletteFindsAllPageMatches | components/command-palette.tsx:206-211 | the palette finds every repository the page's search finds, in the same order |
| CommandPalette.PaletteAlsoMatchesLanguage | components/command-palette.tsx:210 | the converse fails: a language match alone satisfies the palette but not the page |
| CommandPalette.View | components/command-palette.tsx:71-211 | the browsing sections exactly for an empty query: the recent, starred and ranked language lists; otherwise exactly the palette search results, which are the matching repositories |
| CommandPalette.Palette.constructor | components/command-palette.tsx:17-19 | the palette starts with the given open flag, an empty query and nothing selected |
| CommandPalette.Palette.SetSearchQuery | components/command-palette.tsx:52 | the input writes the palette's query |
| CommandPalette.Palette.HandleSelect | components/command-palette.tsx:38-41 | the chosen project goes to the owner and the dialog asks to close |
| CommandPalette.Palette.SelectLanguageEntry | components/command-palette.tsx:174-177 | a language entry selects the first repository of that language in the list |
| CommandPalette.Palette.ResetOnClose | components/command-palette.tsx:22-26 | closing clears the query; staying open keeps it |
| CommandPalette.Palette.OpenChanged | components/command-palette.tsx:22-26 | a change of the open flag followed by its effect |
| Utils.NumberToString | lib/utils.ts:11 | `toString()` of a non-negative integer: decimal digits, no leading zero, one digit exactly below 10 |
| Utils.NumberToStringValue | lib/utils.ts:11 | the decimal string reads back as the number |
| Utils.PadStart2 | lib/utils.ts:11 | `padStart(2, '0')` leaves text of two or more characters alone and puts '0's before shorter text up to length two |
| Utils.FormatTime | lib/utils.ts:8-12 | minutes, a colon, then two characters of seconds; the minutes have no leading zero |
| Utils.FormatTimeReadsBack | lib/utils.ts:8-12 | the minutes and the two-digit seconds below 60 read back to the input (the page's copy at app/page.tsx:91-95 is the same) |
| Utils.CodeUnits | lib/utils.ts:20 | a character is one or two UTF-16 code units, each below 0x10000 |
| Utils.HashUnits | lib/utils.ts:20 | the fold stays a signed 32-bit value |
| Utils.Utf16Units | lib/utils.ts:20 | `split('')` gives one or two code units per character, each below 0x10000, and exactly the character codes for text in the Basic Multilingual Plane |
| Utils.HashStep | lib/utils.ts:20 | each hash step is a signed 32-bit value equal to `31 * a + code` modulo 2^32 |
| Utils.NameHash | lib/utils.ts:20 | the hash of a name is a signed 32-bit value, 0 for the empty name |
| Js.Abs | lib/utils.ts:21 | `Math.abs` is non-negative and equals the input or its negation |
| Utils.PickIndex | lib/utils.ts:21 | `Math.abs(hash) % n` is always an index into an array of n elements |
| Utils.GenerateGradient | lib/utils.ts:14-22 | the gradient is one of the eight colour pairs |
| Utils.FirstFiring | lib/utils.ts:24-103 | the first rule, top to bottom, that fires; none before it fires |
| Utils.GetProjectIcon | lib/utils.ts:24-109 | a non-default result is that of the first firing rule; the default label comes with a music icon |
| Utils.LabelIsKnown | lib/utils.ts:24-109 | the label is one of the twelve rule labels or "Project" |
| Utils.DefaultIffNoRuleFires | lib/utils.ts:105-108 | "Project" is the label exactly when no rule fires |
| Utils.LabelIgnoresCase | lib/utils.ts:25-26 | the label depends only on the lower-cased name and description |
| Utils.RecognitionIsAiMl | lib/utils.ts:29-33 | names containing "recognition" or "classification" are labelled AI/ML |
| Utils.OpencvFacialRecognitionIsAiMl | lib/utils.ts:43 | the Computer Vision rule's first keyword can never decide: such names are labelled AI/ML |
| Utils.ReactNativeNeverMobile | lib/utils.ts:55-65 | "react-native" names are labelled Web Dev or earlier, never Mobile |
| Utils.GenerateThumbnailDesign | lib/utils.ts:111-217 | the design of the first firing rule, or a hash-picked default gradient and pattern with the green accent; the first rule gives the circuit pattern |
| Utils.IconAndThumbnailRulesAgree | lib/utils.ts:29-187 | the first seven icon rules and the seven thumbnail rules fire on exactly the same inputs |
| Utils.AiMlIffFirstRule | lib/utils.ts:29-33 | the AI/ML label is given exactly when the first rule fires |
| Utils.CircuitIffFirstRule | lib/utils.ts:121-130 | the circuit pattern is chosen exactly when the first thumbnail rule fires |
| Utils.CircuitPatternIffAiMl | lib/utils.ts:29-130 | a project gets the circuit thumbnail exactly when its icon is labelled AI/ML |
| GitHub.StripMarkup | lib/github.ts:375 | removing `#`, `*` and backquote leaves exactly the other characters, in order |
| GitHub.CollapseNewlines | lib/github.ts:376 | no two newlines in a row remain; the text without newlines is unchanged, and so is whether it has one |
| GitHub.CollapseBeforeText | lib/github.ts:376 | a character other than a newline passes through and the rest collapses on its own |
| GitHub.CollapseRun | lib/github.ts:376 | a maximal run of newlines becomes exactly one newline; with CollapseBeforeText this fixes the result on every text |
| GitHub.CollapseKeepsCleanText | lib/github.ts:376 | text without blank runs is left as it is |
| GitHub.CollapseIdempotent | lib/github.ts:376 | collapsing twice is collapsing once |
| GitHub.CleanedText | lib/github.ts:374-376 | the cleaned text has only characters of the content and no blank runs; without its newlines it is exactly the content without markup and newlines, in order |
| GitHub.PrefixNoBlankRun | lib/github.ts:377 | cutting a text without blank runs keeps it without blank runs |
| GitHub.EllipsisKeepsClean | lib/github.ts:377 | a short clean text followed by "..." is a clean README |
| GitHub.CleanReadme | lib/github.ts:374-377 | the README is the first min(length, 500) characters of the cleaned text plus "...", clean |
| GitHub.CleanReadmeOfCleanText | lib/github.ts:374-377 | a short text without markup or blank runs comes through unchanged, plus "..." |
| GitHub.FetchReadme | lib/github.ts:355-382 | no README exactly on a failed or thrown request, otherwise the clean text of the content |
| GitHub.FetchTopics | lib/github.ts:384-404 | the names of the response, or none when the request fails or has no names |
| GitHub.OrDefault | lib/github.ts:320 | `value \|\| fallback`: the value when present and non-empty, else the fallback |
| GitHub.ShapeRepository | lib/github.ts:316-328 | the shaped record keeps the list entry's fields, with a missing or empty description as "No description available" and language as "Unknown"; the README is `fetchReadme` of its response, so a clean README exactly when its request succeeded; the fetched topics |
| GitHub.ShapeWithoutDetails | lib/github.ts:331-343 | the catch branch keeps the same fields and defaults, with no topics and no README |
| GitHub.CatchBranchIsFailedDetails | lib/github.ts:329-343 | the catch branch builds the record that two failed detail requests would |
| GitHub.ShapeAll | lib/github.ts:308-346 | one shaped record per listed entry, in order, each described |
| GitHub.FetchRepositories | lib/github.ts:284-353 | the built-in list without a token or on a failed list request; otherwise exactly the shaped entries, one per entry in order; every record is described |
| GitHub.Fallback | lib/github.ts:4-282 | a built-in record keeps its id, description and language |
| GitHub.FallbackRepositories | lib/github.ts:4-282 | four built-in records with ids 1 to 4, each described |
| GitHub.FallbackNavigationRoundTrips | lib/github.ts:4-282 | the built-in ids are distinct, so the page's previous/next navigation round-trips on them |

## Left out

- Rendering (JSX, styling, animation, `cn`), the scroll refs and `useInView`, the mobile menu, the grid/carousel view switch and `openGitHub` (it only opens a URL).
- The player's lyrics scroll and the progress percentage: both are floating-point display values.
- The timer lifecycle (`setInterval`/`clearInterval`, effect dependencies). Each firing of an interval is one call of a `Tick` method.
- I/O: `fetch`, the HTTP headers, `process.env`, base64 decoding and `console` logging. Responses and the token are parameters, and a decoded README arrives as text.
- Text.ToLower: lower-cases ASCII letters only, not the full Unicode case mapping of `toLowerCase`.
- GitHub.CleanReadme: cuts at 500 characters, where `substring` counts UTF-16 code units, so the two differ only on text outside the Basic Multilingual Plane.
- GitHub.FallbackRepositories: the README texts of the built-in records are shortened, the first three to their heading line and the fourth to its opening words. The other fields are as in the source.
- CommandPalette.LanguageGroups: models the plain-object `reduce` as a map with its key insertion order. It leaves out two JavaScript object quirks:
  - `Object.entries` lists integer-like keys first;
  - a language named like an `Object.prototype` member (e.g. "constructor") makes the source's `acc[language].push` fail.
- CommandPalette.Palette: the `onSelectProject` and `onOpenChange` callbacks are recorded as the `selected` list and the `open` field. Their effects in the owner are not modelled.
- MusicPlayer.NextRepo: requires a non-empty filtered list. On an empty list the source stores a NaN index, which the player never renders.
- MusicPlayer.Tick: requires a non-empty filtered list, for the same NaN reason.
- Utils.GetProjectIcon: the contract says which rule decides. "Project" exactly when none fires and the set of possible labels are separate lemmas (DefaultIffNoRuleFires, LabelIsKnown).
- CommandPalette.View and CommandPalette.PaletteSearch: they model the component's own `.filter` (components/command-palette.tsx:206-211). The `<Command>` list (line 46) also filters and ranks its items itself by their `value`, because it does not turn off its own filtering. That value is the name and description (lines 79, 121, 217) or the language (line 173). So the list on screen can be shorter and ordered differently, and a repository that matches only on its language (PaletteAlsoMatchesLanguage) can be hidden. This extra filtering and ordering of the list widget is not modelled.
