# AniWatch: a verified model of the front-end's logic

AniWatch is a browser front-end for anime discovery. It lists titles from the Jikan catalog API, forwards questions and mood descriptions to a generative-AI service, and embeds third-party video players. Most of the repository is markup. This project models the four pieces that hold logic and proves their properties in Dafny:

- **The metadata client** (`anime_service.dfy`, module `AnimeService`).
  - `generateSlug` as a three-stage string rewrite.
  - The URL that `searchAnime` builds.
  - The `data.data || []` fallback of the search and the unchecked `data.data` of the other fetchers.
  - The request URLs of the other fetchers.
- **The AI client's link extraction** (`gemini_service.dfy`, module `GeminiService`): how `findStreamingSources` turns the grounding chunks of a response into a list of `{title, uri}` links.
- **The search bar** (`navbar.dfy`, module `Navbar`). The debounced live search is an event machine with the events mount, text edit, filter edit, clear, toggle and timer expiry. Two parts:
  - a pure `Step`/`Run` specification with lemmas about bursts of edits;
  - a `SearchBox` class whose methods are proved to follow `Step`.
- **The root component** (`app.dfy`, module `App`): the class `AniWatchApp`, with the component's state fields and one method per handler. A pure embed-URL mapping sits beside it. Each awaited service call becomes a parameter holding its outcome (`Success(value)` or `Failure`).

`types.dfy` holds the records of `types.ts`. `text.dfy` holds the ECMAScript facts the core relies on: the `\s` whitespace class, `trim`, and the printing of a number in a template literal.

Where the code behaves differently from what one would expect of the application, the model follows the code:

- `getAnimeById` returns `data.data` without checking it. One would expect the details view never to open without an entry. The code opens it: a detail response without `data` selects nothing and still opens the details view (`App.AniWatchApp.HandleAnimeClick`), which then renders nothing.
- `getTrendingAnime` and `getTopMovies` also return `data.data` unchecked. A response without `data` stores `undefined` as the list, which the model writes as `None`. `handleGetRecs` then throws at `trending.slice` and the catch leaves the recommendations unchanged (`App.AniWatchApp.HandleGetRecs`).
- `handleAnimeClick` sets `loading`, which shows the full-page spinner during a detail fetch, not only during the first load.
- The recommendation result is `JSON.parse` plus a type cast. A response without `recommendations` is not rejected by the client. The model takes the outcome of the whole call as a parameter.
- The chat view is called `ai-sensei` in the code (`AiSensei` here).

## Model

| member | source | states |
|---|---|---|
| `Text.TrimStart` | App.tsx:62 | the result is a suffix of the input, what was dropped is all whitespace, and it does not start with whitespace |
| `Text.TrimEnd` | App.tsx:62 | the result is a prefix of the input, what was dropped is all whitespace, and it does not end with whitespace |
| `Text.Trim` | App.tsx:62 | `trim()` never lengthens the string, and what it leaves neither starts nor ends with whitespace |
| `Text.TrimIsMiddle` | App.tsx:62 | `trim()` returns a contiguous middle piece of the input, and everything cut off before and after it is whitespace |
| `Text.TrimCutsEnd` | App.tsx:62 | after the leading cut, `trim()` keeps a prefix of what remains and drops only whitespace after it |
| `Text.MiddlePiece` | App.tsx:62 | a prefix of a suffix is a contiguous piece of the string, and the parts around it are exactly what the two cuts dropped |
| `Text.BlankIffAllWhitespace` | App.tsx:62 | `!s.trim()` holds exactly when every character of `s` is ECMAScript whitespace |
| `Text.IsBlank` | App.tsx:62 | the handlers' blank test `!s.trim()` answers true exactly when the string is all whitespace |
| `Text.DecimalText` | App.tsx:319-323 | the printed id is a non-empty string of digits whose last digit is `n % 10` (plain digits, as JavaScript prints integers below 10^21) |
| `Text.DecimalTextInjective` | App.tsx:319-323 | two different ids never print the same (for ids JavaScript represents exactly, below 2^53) |
| `Text.Filter` | services/animeService.ts:10 | the character strip keeps only characters of the class, taken from the input, and never lengthens the string |
| `Text.FilterAppend` | services/animeService.ts:10 | the strip works character by character: stripping a concatenation is stripping each part |
| `Text.FilterAllKept` | services/animeService.ts:10 | a string made only of allowed characters passes the strip unchanged |
| `Text.FilterNarrower` | services/animeService.ts:10 | stripping to a narrower class after a wider one is the same as stripping to the narrower class |
| `Text.FilterKeepsFirst` | services/animeService.ts:10 | an allowed first character is still first after the strip |
| `Text.FilterKeepsLast` | services/animeService.ts:10 | an allowed last character is still last after the strip |
| `AnimeService.ToLower` | services/animeService.ts:9 | same length; every ASCII capital becomes its small letter; no capital remains; other characters are unchanged |
| `AnimeService.ReplaceRuns` | services/animeService.ts:11-12 | a global `/X+/` replace never lengthens the string, and every output character is the replacement or an input character outside the class |
| `AnimeService.ReplaceRunsAbsorbs` | services/animeService.ts:11-12 | inside a run already replaced, further class characters add nothing |
| `AnimeService.ReplaceRunsAfterBreak` | services/animeService.ts:11-12 | after a character outside the class, the rest is replaced as if from the start |
| `AnimeService.ReplaceRunsSplit` | services/animeService.ts:11-12 | a maximal run with no class character just before or after it becomes exactly one replacement, and the parts around it are replaced independently |
| `AnimeService.GenerateSlug` | services/animeService.ts:7-13 | the slug is no longer than the title, uses only `a-z`, `0-9` and `-`, and never holds `--` |
| `AnimeService.NoAdjacentReplacement` | services/animeService.ts:12 | when the replacement belongs to the class, the output never holds it twice in a row |
| `AnimeService.TwoPassesAreOne` | services/animeService.ts:11-12 | replacing whitespace runs by `-` and then `-` runs by `-` equals replacing runs of `[\s-]` by `-` in one pass |
| `AnimeService.SlugCollapsesSeparatorRuns` | services/animeService.ts:9-12 | the slug is the lower-cased, stripped title with every maximal run of whitespace and hyphens replaced by exactly one `-` |
| `AnimeService.ReplaceRunsKeepsOthers` | services/animeService.ts:11-12 | characters outside the replaced class pass through in order |
| `AnimeService.SlugKeepsLettersAndDigits` | services/animeService.ts:8-12 | the letters and digits of the slug, in order, are exactly those of the lower-cased title |
| `AnimeService.ReplaceRunsIdentity` | services/animeService.ts:11-12 | a string already in slug form is left unchanged by the run replacement |
| `AnimeService.SlugIdempotent` | services/animeService.ts:7-13 | `generateSlug(generateSlug(t)) == generateSlug(t)` |
| `AnimeService.ReplaceRunsTrailing` | services/animeService.ts:11-12 | a run at the end of the input leaves the replacement at the end of the output |
| `AnimeService.StrippedEdges` | services/animeService.ts:9-10 | a leading or trailing whitespace or hyphen survives lower-casing and stripping |
| `AnimeService.SlugKeepsLeadingHyphen` | services/animeService.ts:9-12 | no trimming: a title that starts with whitespace or `-` gives a slug that starts with `-` |
| `AnimeService.SeparatorRunsTrailing` | services/animeService.ts:9-12 | a title that ends with whitespace or `-` leaves a trailing `-` after the run replacement |
| `AnimeService.SlugKeepsTrailingHyphen` | services/animeService.ts:9-12 | no trimming: a title that ends with whitespace or `-` gives a slug that ends with `-` |
| `AnimeService.SearchUrl` | services/animeService.ts:28-34 | every search URL starts with the base URL, `/anime?q=`, the encoded query and `&limit=24&order_by=score&sort=desc` |
| `AnimeService.ActiveParams` | services/animeService.ts:30-34 | at most three filter parameters, none with an empty value, and none without a filters object |
| `AnimeService.ActiveParamsExactly` | services/animeService.ts:30-34 | `type`, `status` and `rating` are each sent exactly when set and non-empty, with the value unencoded, in that fixed order |
| `AnimeService.NoFiltersNoParams` | services/animeService.ts:28-30 | with no filters object, or only empty filters, the URL is exactly the fixed prefix |
| `AnimeService.BuildSearchUrl` | services/animeService.ts:28-34 | the step-by-step `url +=` construction yields the specified URL |
| `AnimeService.RenderAppend` | services/animeService.ts:31-33 | rendering parameters distributes over concatenation |
| `AnimeService.AppendParam` | services/animeService.ts:31-33 | one `url += '&name=value'` renders one more parameter |
| `AnimeService.RenderOne` | services/animeService.ts:31-33 | one parameter renders as `&name=value` |
| `AnimeService.SearchResults` | services/animeService.ts:38 | a response without `data` yields the empty list, otherwise its list unchanged |
| `AnimeService.TrendingUrl` | services/animeService.ts:16 | the trending request is a query on the top-anime endpoint that starts with `page=` and ends with `&limit=20` |
| `AnimeService.TopMoviesUrl` | services/animeService.ts:22 | the movie request is a query on the same top-anime endpoint whose whole query is `type=movie&limit=5` |
| `AnimeService.HomeRequestsDiffer` | services/animeService.ts:16-22 | no trending page request is ever the movie request |
| `AnimeService.DetailUrl` | services/animeService.ts:42 | the detail request is a path under `/anime/` of the base URL that ends in `/full` |
| `AnimeService.TrendingUrlDeterminesPage` | services/animeService.ts:15-16 | the trending request names its page: different pages give different URLs |
| `AnimeService.DetailUrlDeterminesId` | services/animeService.ts:41-42 | the detail request names the entry: different ids give different URLs |
| `GeminiService.LinkTitle` | services/geminiService.ts:63 | a missing or empty `web.title` becomes `'Watch Link'`, otherwise the title is kept |
| `GeminiService.MapChunk` | services/geminiService.ts:62-64 | the mapped entry carries the chunk's title or `'Watch Link'`, and the chunk's `web.uri` as it is |
| `GeminiService.KeepWithUri` | services/geminiService.ts:65 | the filter never lengthens the list; each kept link has a non-empty URI and comes from an input entry; it is empty when no entry has a URI |
| `GeminiService.ExtractSources` | services/geminiService.ts:62-65 | at most one link per chunk, each with a non-empty URI |
| `GeminiService.FirstCandidateChunks` | services/geminiService.ts:62 | the optional chain yields chunks only when a first candidate exists and its metadata carries them, and then exactly that candidate's `groundingChunks`; no candidates or an empty list yields none |
| `GeminiService.FindStreamingSources` | services/geminiService.ts:62-70 | the text is the response text unchanged; the links are empty when the chunk chain is absent and otherwise extracted from the first candidate's chunks |
| `GeminiService.KeepWithUriAppend` | services/geminiService.ts:65 | the filter distributes over concatenation |
| `GeminiService.SourcesOfOneChunk` | services/geminiService.ts:62-65 | a chunk without a URI gives no link; a chunk with one gives exactly its link |
| `GeminiService.SourcesOfConcatenation` | services/geminiService.ts:62-65 | extraction keeps the original relative order: the links of `a + b` are the links of `a` then those of `b` |
| `GeminiService.SourcesCount` | services/geminiService.ts:62-65 | the number of links equals the number of chunks that carry a URI |
| `GeminiService.SourcesMembership` | services/geminiService.ts:62-65 | a link is listed exactly when some chunk with a non-empty URI contributes it |
| `GeminiService.NoChunksNoSources` | services/geminiService.ts:62-65 | missing `candidates`, an empty candidate list, or missing metadata or chunks give an empty link list with the text kept |
| `Navbar.SetFilter` | components/Navbar.tsx:57-59 | `updateFilter(k, v)` sets field `k` to `v` and leaves the other fields unchanged |
| `Navbar.RunEffect` | components/Navbar.tsx:25-36 | every run leaves the bar mounted and the values unchanged; the first run arms nothing, and every later run arms a timer holding the current text and filters |
| `Navbar.Step` | components/Navbar.tsx:25-36 | only the timer's expiry calls `onSearch`, with the pending snapshot, and it leaves the bar idle; once mounted, the bar stays mounted |
| `Navbar.Run` | components/Navbar.tsx:25-36 | a sequence of events makes at most one `onSearch` call per timer expiry |
| `Navbar.InitialIsIdle` | components/Navbar.tsx:14-22 | the first render has empty text, `type` and `status` empty, and no pending timer |
| `Navbar.MountIsSilent` | components/Navbar.tsx:26-29 | the effect's run on mount calls nothing and arms nothing; it only sets the mounted flag |
| `Navbar.StepKeepsSnapshot` | components/Navbar.tsx:31-35 | every event keeps the pending timer's snapshot equal to the current text and filters |
| `Navbar.ElapseDeliversCurrent` | components/Navbar.tsx:31-33 | when the timer elapses, `onSearch` receives the current text and filters, and no timer is left pending |
| `Navbar.EditRearms` | components/Navbar.tsx:31-36 | after mounting, a text or filter change cancels any pending timer and arms a new one with the new values |
| `Navbar.RunAppend` | components/Navbar.tsx:25-36 | running `a + b` is running `a` then `b`, with the calls concatenated |
| `Navbar.QuietBurst` | components/Navbar.tsx:31-36 | a burst with no expiry makes no call, keeps the snapshot current, and leaves a timer pending once one was armed or a filter changed after mounting |
| `Navbar.BurstThenElapse` | components/Navbar.tsx:31-36 | a burst of edits followed by one expiry makes at most one call, carrying the values left by the last edit |
| `Navbar.KeystrokesSetText` | components/Navbar.tsx:89 | after mounting, a run of keystrokes starting with a change leaves the last value, the same filters and a pending timer |
| `Navbar.KeystrokesKeepArmed` | components/Navbar.tsx:89 | keystrokes keep a pending timer pending and leave the last value typed |
| `Navbar.KeystrokesThenElapse` | components/Navbar.tsx:31-36 | N keystrokes after mounting, then one expiry, make exactly one call, with the last value and the unchanged filters |
| `Navbar.SearchBox.constructor` | components/Navbar.tsx:14-22 | the component starts in the initial state |
| `Navbar.SearchBox.Effect` | components/Navbar.tsx:25-36 | the effect body: the first run sets the flag; later runs replace the pending timer with one holding the current values |
| `Navbar.SearchBox.Mount` | components/Navbar.tsx:22-29 | the first render's effect run follows `Step` for the mount event |
| `Navbar.SearchBox.SetSearchValue` | components/Navbar.tsx:89 | typing follows `Step`: an unchanged value does nothing, a new value re-arms the timer |
| `Navbar.SearchBox.OnVoiceResult` | components/Navbar.tsx:46-49 | a voice transcript replaces the text exactly like an edit |
| `Navbar.SearchBox.UpdateFilter` | components/Navbar.tsx:57-59 | a filter change updates one field and always re-arms the timer |
| `Navbar.SearchBox.ClearFilters` | components/Navbar.tsx:61-64 | `type` and `status` become empty, `showFilters` false, and the timer is re-armed |
| `Navbar.SearchBox.ToggleFilters` | components/Navbar.tsx:104 | the filter panel flag flips and nothing else changes |
| `Navbar.SearchBox.Elapse` | components/Navbar.tsx:31-33 | the expiry returns the pending call, if any, and leaves the bar idle |
| `App.DisplayTitle` | App.tsx:101 | the shown title is `title_english` when present and non-empty, else `title` |
| `App.ServerKey` | App.tsx:346-364 | each of the four server buttons stores one of the four server keys |
| `App.ServerKeysDistinct` | App.tsx:346-364 | different buttons store different keys, so each button selects its own server |
| `App.EmbedUrl` | App.tsx:313-325 | the embed URL is the server's host followed by the printed id |
| `App.EmbedHost` | App.tsx:318-324 | the `switch` picks the `vidsrc.me` fallback exactly for a key that is not one of the four servers |
| `App.HostsDiffer` | App.tsx:318-324 | two different keys, one of them a server key, pick embed hosts that differ at a position inside both |
| `App.EmbedUrlsDistinct` | App.tsx:318-324 | the four server keys map to four distinct hosts, and every other key maps to the `vidsrc.me` fallback, which differs from all four, whatever the ids |
| `App.EmbedUrlDeterminesId` | App.tsx:319-323 | the id is embedded: one server gives different URLs for different ids |
| `App.SenseiReply` | App.tsx:123-126 | the assistant's entry is the answer, or `"Sensei is busy. Try again!"` when the call failed |
| `App.LikedTitles` | App.tsx:136 | the liked list is the native `title` of the first min(3, number of trending entries) trending entries, in order |
| `App.HasKindOrStatus` | App.tsx:61 | when a type or status is set some filter parameter is sent; otherwise at most the rating is |
| `App.StreamRequestMessage` | App.tsx:104 | the logged request embeds the title exactly, between a fixed 23-character opening and a fixed 34-character ending |
| `App.AniWatchApp.constructor` | App.tsx:16-33 | the initial state: home view, empty lists, no selection, spinner on, server `hianime`, no player error, empty chat |
| `App.AniWatchApp.FetchInitialData` | App.tsx:35-51 | it requests trending page 1 and the top movies. Only when both succeed are both lists stored, each as its response's `data` unchecked, so a missing `data` is stored as `undefined`. The spinner ends either way |
| `App.AniWatchApp.HandleSearch` | App.tsx:58-72 | always sets `searchQuery` and the search view. It sends no request exactly when the query is blank and neither `type` nor `status` is set, and then clears the results. Otherwise it sends the specified URL: success replaces the results wholesale and failure keeps them |
| `App.AniWatchApp.HandleAnimeClick` | App.tsx:74-87 | it requests the detail record of the clicked id. The streaming lookup is cleared and the spinner ends. Success selects the response's entry, unchecked, and opens the details view. Failure changes neither |
| `App.AniWatchApp.HandleWatchClick` | App.tsx:89-95 | selects the entry, sets server `hianime`, clears the player error and opens the player |
| `App.AniWatchApp.SelectServer` | App.tsx:346-364 | a server button sets `activeServer` to its key and clears the player error |
| `App.AniWatchApp.ResetPlayerError` | App.tsx:394 | the re-init button clears the player error |
| `App.AniWatchApp.TogglePlayerError` | App.tsx:448 | the buffer-reset button flips the player error |
| `App.AniWatchApp.Navigate` | App.tsx:187 | the plain view changes set the view and keep the invariant; the same step models the other plain `setView` sites at App.tsx:210, 332, 451, 608 and 642-644, none of which targets the player |
| `App.AniWatchApp.EditAiInput` | App.tsx:543 | the chat box's text becomes the typed value, and the invariant is kept |
| `App.AniWatchApp.EditMood` | App.tsx:570 | the mood box's text becomes the typed value, and the invariant is kept |
| `App.AniWatchApp.GetEmbedUrl` | App.tsx:313-325 | the player URL is the active server's embed URL for the selected id. It is never the `vidsrc.me` fallback, because the active server is always one of the four keys |
| `App.AniWatchApp.HandleFindStreaming` | App.tsx:97-113 | does nothing without a selection. Otherwise it looks up the display title and stores the result. Only in the player view does the chat grow, by one user entry then one assistant entry; earlier entries are unchanged. Failure keeps the lookup and the chat |
| `App.AniWatchApp.HandleAskSensei` | App.tsx:115-130 | a blank question does nothing. Otherwise the chat grows by exactly the question then the answer or the apology, earlier entries are unchanged, and the box is emptied |
| `App.AniWatchApp.HandleGetRecs` | App.tsx:132-144 | a blank mood does nothing. An `undefined` trending list makes the handler throw before sending, and the recommendations are kept. Otherwise it sends the mood and the liked titles. Success replaces the recommendations and failure keeps them |

The object invariant `App.AniWatchApp.Valid` has two parts. First, `activeServer` is always one of the four button keys (App.tsx:24, 91, 346-364), so the `default` branch of the embed switch is never taken in the running application. Second, the player view always has a selected entry (App.tsx:89-95, 311). Every handler's contract keeps it. `Navigate` keeps it because no plain `setView` call site targets the player.

## Left out

- Rendering, styling and layout: `components/Hero.tsx`, `components/AnimeCard.tsx`, and the markup of `App.tsx` and `components/Navbar.tsx`.
- The HTTP requests and `response.json()`, and the generative-AI calls, their prompts and the `JSON.parse` of their output. Their outcomes are parameters. The request URLs of `searchAnime`, `getTrendingAnime`, `getTopMovies` and `getAnimeById` are modelled.
- `getSeasonNow` (services/animeService.ts:47-50): the root component never calls it.
- Rendering with an `undefined` list. After a response without `data`, `topMovies.map` and `trending.map` throw during rendering. Only the list state and its effect on `handleGetRecs` are modelled.
- `encodeURIComponent`: an uninterpreted function parameter (`encode`).
- Real timers. Timer expiry is the explicit `Elapse` event, and the 500 ms window is not modelled.
- Intermediate states inside an async handler, such as `isAiThinking` or `loading` being true while a call is pending. The model also leaves out interleaving of overlapping calls and late responses that overwrite newer state. Each handler is one atomic step from its start to its completion.
- React's development-mode double run of effects, and the cleanup on unmount.
- Browser speech recognition (except the transcript assignment), `alert`, `window.scrollTo`, theme toggling and `isDark`, and `e.preventDefault()`.
- Floating-point display (`toFixed`, `Math.floor(similarityScore * 100)`). Numeric scores are kept as `real` and never computed with.
- Anime ids are natural numbers. A fractional or negative `mal_id` is not modelled.
- `Text.DecimalText`: prints every natural number as plain digits. JavaScript does so only below 10^21 and uses exponent form from there on; such ids are not modelled.
- `Text.DecimalTextInjective`: holds for all naturals, while JavaScript numbers are exact only below 2^53; larger ids, which JavaScript rounds before printing, are not modelled.
- `AnimeService.ToLower`: does not model `toLowerCase` outside ASCII. Non-ASCII characters are left unchanged, although JavaScript maps some of them, such as U+0130 and the Kelvin sign, to ASCII letters. Because of this, the slug's alphabet, length and idempotence lemmas are proved under this ASCII-only lowering, and are exact only for ASCII titles.
- `App.AniWatchApp.HandleWatchClick`: the source's `scrollTo` side effect is omitted.
