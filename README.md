# Job search proxy and result pages — a Dafny model

The system is a two-tier job-search application. A backend route,
`POST /job-search`, validates a search request, wraps the keywords in the
upstream search envelope and flattens every upstream result into a small
job record; `GET /genome/:username` forwards a profile lookup. Two React
pages consume the search: the job seeker's page picks keywords from the
query or the stored profile, counts the jobs per country through a
case-insensitive renaming chain, lists the countries by name and filters by
country and job type; the recruiter's page picks keywords from a fallback
chain, turns the reply into results or a message, filters by location,
labels the experience filter and ranks a profile's top skills. Both pages
offer the same search-box suggestions.

The model is split into modules that follow that structure:

- `Common` (`common.dfy`): `Option`, `Array.prototype.filter` as `Filter`,
  `slice(0, n)` as `Take`/`SliceEnd`, and the subsequence relation.
- `Text` (`text.dfy`): `trim`, ASCII `toLowerCase`, `includes`, `join`, and
  the string order standing for `localeCompare`.
- `Js` (`js.dfy`): JSON field values, truthiness, `String(v)` and
  `parseInt(v, 10)`.
- `Api` (`api.dfy`): the two routes of `server/routes/api.js`. The upstream
  HTTP services are function parameters, from what is sent to what comes
  back (or the error thrown).
- `Suggestions` (`suggestions.dfy`): `handleInputChange`, which is the same
  code in `client/src/Pages/Seeker.js:114-128` and
  `client/src/Pages/Recruiter.js:105-119`.
- `Seeker` (`seeker.dfy`): `client/src/Pages/Seeker.js`. The country count
  is an imperative method whose loop keeps the tally of the jobs seen so far.
- `Recruiter` (`recruiter.dfy`): `client/src/Pages/Recruiter.js`.

The server does not trim keywords (whitespace-only keywords are accepted),
defaults the limit to 100 and rejects none; there is no rate limiter, no
username check, no timeout and no 404 or 504 mapping; every upstream
failure is a 500.

Some members are plain definitions of source expressions whose properties
are stated by the lemmas in the table below rather than by a contract of
their own: `Api.Details` (`error.response?.data || error.message`,
server/routes/api.js:54 and 68) and `Api.BuildPayload` (lines 15-25) by
`Api.AcceptedSearchOutcome` and `Api.PayloadShape`; `Seeker.Keywords`
(client/src/Pages/Seeker.js:47-50) by `Seeker.KeywordsChoice` and
`Seeker.KeywordsEmptyIff`; `Seeker.FetchPayload` (lines 52-56) by
`Seeker.FetchReachesUpstream`; `Seeker.FilterCountry` (lines 137-139) by
`Seeker.FilterCountryTable`; `Seeker.Histogram` (lines 66-77) by
`Seeker.HistogramSpec`; `Recruiter.Payload`
(client/src/Pages/Recruiter.js:60-64) by `Recruiter.PayloadAccepted`; and
`Recruiter.Precedes` (line 148) by `Recruiter.PrecedesSplit`.

## Model

| member | source | states |
|---|---|---|
| Api.JobSearch | server/routes/api.js:7-57 | status is 200, 400 or 500; 400 exactly when `keywords` is falsy, with "Keywords are required"; 500 carries "Failed to search jobs"; 200 carries a job list |
| Api.RejectionSkipsUpstream | server/routes/api.js:11-13 | a rejected request gives the same response whatever the upstream would do: no upstream call is made |
| Api.WhitespaceKeywordsAccepted | server/routes/api.js:11-13 | keywords made of a space are not refused and are sent upstream as they are |
| Api.AcceptedSearchOutcome | server/routes/api.js:27-56 | an accepted request answers 200 with the normalised results of the upstream reply, or 500 with the upstream's details when the call throws |
| Api.PayloadShape | server/routes/api.js:9-25 | the envelope has exactly one `skill/role` clause with the keywords as given and the experience or "potential-to-develop"; size is the limit, 100 when absent, NaN for null or a boolean |
| Api.PayloadSizeFromText | server/routes/api.js:16 | a limit sent as the decimal text of an integer gives that integer as size |
| Js.ParseIntRoundTrip | server/routes/api.js:16 | `parseInt(String(n), 10)` is `n` for every integer |
| Js.ParseIntOfValue | server/routes/api.js:16 | `parseInt` of a number is that number; of null or a boolean it is NaN |
| Api.NormalizeJob | server/routes/api.js:37-46 | location is the first location's non-empty name, else "Unknown" (both directions); organization is the first one or `{}`; skills default to `[]`; id, objective, type, remote, compensation and deadline are copied |
| Api.Normalize | server/routes/api.js:36-47 | one output per input, position by position |
| Api.NormalizeResults | server/routes/api.js:36 | absent `results` gives `[]`; otherwise as many jobs as results, each the normalisation of the result at the same position |
| Api.NormalizeAppend | server/routes/api.js:36 | normalising a concatenation normalises the parts independently |
| Api.GenomeLookup | server/routes/api.js:59-71 | 200 with the upstream document exactly when the upstream replies; otherwise 500 with "Failed to fetch genome data" and the upstream's details |
| Suggestions.SuggestionsFor | client/src/Pages/Seeker.js:114-128 | shown exactly when the input is longer than one character; at most five; a subsequence of the skill list; each contains the input ignoring case; none left out while fewer than five; and the ones shown are the first matches in list order: a match is never skipped in favour of a later skill |
| Seeker.KeywordsChoice | client/src/Pages/Seeker.js:47-50 | a query with a non-space character gives its trimmed text; a blank query gives the profile's strength names in order joined by ", " (so every strength is named), or "developer" without strengths |
| Seeker.KeywordsEmptyIff | client/src/Pages/Seeker.js:47-50 | the keywords are empty only for a blank query and a profile whose single strength has an empty name |
| Text.Trim | client/src/Pages/Seeker.js:47 | the result is the input without its leading and trailing whitespace, and is empty exactly when the input is all whitespace |
| Text.JoinContainsEach | client/src/Pages/Seeker.js:49 | every joined name occurs in the joined keywords |
| Text.JoinSnoc | client/src/Pages/Seeker.js:49 | joining one more name appends the separator and that name |
| Text.JoinLength | client/src/Pages/Seeker.js:49 | the join is as long as the names together plus one separator between each two of them |
| Text.JoinEmptyIff | client/src/Pages/Seeker.js:49 | with a non-empty separator, the join is empty only for no names or one empty name |
| Seeker.FetchReachesUpstream | client/src/Pages/Seeker.js:52-61 | the server refuses the seeker's request only for empty keywords, and otherwise asks the upstream for 100 results at "potential-to-develop" |
| Seeker.CountryOf | client/src/Pages/Seeker.js:68-74 | the four renaming steps applied in order give the table: "columbia" to "Colombia", "usa" and "united states" to "USA", "uk" to "United Kingdom", ignoring case |
| Seeker.CountCountries | client/src/Pages/Seeker.js:66-77 | the loop's counts are the tally of the jobs' countries |
| Seeker.HistogramStep | client/src/Pages/Seeker.js:76 | each job adds exactly one to its own country's count |
| Seeker.CountryNameNonEmpty | client/src/Pages/Seeker.js:68 | every job is counted under a non-empty name |
| Seeker.TallyTotal | client/src/Pages/Seeker.js:66-77 | the counts sum to the number of jobs and every count is at least one |
| Seeker.TallyKeys | client/src/Pages/Seeker.js:66-77 | the names counted are exactly the names of the jobs |
| Seeker.TallyCount | client/src/Pages/Seeker.js:66-77 | a name's count is the number of jobs with that name |
| Seeker.HistogramSpec | client/src/Pages/Seeker.js:66-77 | the country counts sum to the number of jobs, are at least one, cover exactly the jobs' countries, and each is the number of jobs in that country |
| Seeker.CountsCoverEveryResult | client/src/Pages/Seeker.js:63-77 | the counts of a search sum to the number of upstream results the server normalised |
| Seeker.MinKey | client/src/Pages/Seeker.js:153 | the first country name in order comes before every other one |
| Seeker.SortedCountries | client/src/Pages/Seeker.js:152-157 | the country list has one entry per counted country |
| Seeker.SortedCountriesSpec | client/src/Pages/Seeker.js:152-157 | every entry is a counted country with its count, every counted country has an entry, and names strictly increase |
| Seeker.CountryListCountsJobs | client/src/Pages/Seeker.js:152-157 | every entry of the country list has a count of at least one, equal to the number of jobs in that country |
| Text.LessTransitive | client/src/Pages/Seeker.js:153 | the name order is transitive |
| Text.LessTotal | client/src/Pages/Seeker.js:153 | any two different names are ordered one way |
| Text.LessAsymmetric | client/src/Pages/Seeker.js:153 | no two names are ordered both ways |
| Seeker.FilteredJobs | client/src/Pages/Seeker.js:136-144 | a subsequence of the jobs holding exactly the jobs that pass both filters, each as many times as in the input; both filters empty gives all jobs; a type other than "remote" or "onsite" gives none |
| Seeker.FilterCountryTable | client/src/Pages/Seeker.js:137-139 | the filter renames only "columbia" and "united states", ignoring case |
| Seeker.CountryButtonHidesCountedJob | client/src/Pages/Seeker.js:136-144 | a job located in "usa" is counted under "USA", and filtering by "USA" hides it |
| Seeker.FilteredJobsByCountryName | client/src/Pages/Seeker.js:136-144 | the filter comparing the counted country name: a subsequence of exactly the jobs that pass, each as many times as in the input |
| Seeker.CountryButtonShowsItsCount | client/src/Pages/Seeker.js:136-144 | with the counted name, choosing a country shows exactly as many jobs as its count |
| Seeker.MountFetchIgnoresProfile | client/src/Pages/Seeker.js:95-101 | the first search after mounting is for "developer" even when the stored profile has strengths |
| Seeker.MountFetchUsesProfile | client/src/Pages/Seeker.js:95-101 | with the stored profile in view, the first search is for its strength names joined by ", ", naming every strength |
| Recruiter.Keywords | client/src/Pages/Recruiter.js:61 | the keywords are never empty and are one of argument, typed skills, industry or "developer" |
| Recruiter.KeywordsPrecedence | client/src/Pages/Recruiter.js:61 | the first non-empty of argument, typed skills and industry wins; "developer" is used exactly when all three are empty or already "developer" |
| Recruiter.Experience | client/src/Pages/Recruiter.js:62 | the experience filter when set, else "potential-to-develop"; never empty |
| Recruiter.PayloadAccepted | client/src/Pages/Recruiter.js:60-64 | the server never refuses the recruiter's request and asks the upstream for 20 results with the chosen keywords and experience |
| Recruiter.AfterSearch | client/src/Pages/Recruiter.js:71-86 | results are empty exactly when an error is shown; a non-empty job list is shown as it is with no error, and shown results are always the reply's job list; an empty or non-list reply shows "No results found"; a failure shows the server's error, else the client's message, else the fixed fallback |
| Recruiter.SearchEndToEnd | client/src/Pages/Recruiter.js:54-87 | upstream results show as their normalised records, none shows "No results found", an upstream failure shows "Failed to search jobs" |
| Recruiter.FilteredResults | client/src/Pages/Recruiter.js:128-132 | all results for an empty filter; otherwise a subsequence holding exactly the results whose location contains the filter ignoring case, each as many times as in the input |
| Recruiter.FilteredResultsIdempotent | client/src/Pages/Recruiter.js:128-132 | filtering the filtered results again changes nothing |
| Recruiter.FilteredResultsIgnoreCase | client/src/Pages/Recruiter.js:131 | lower-casing the filter text does not change the results |
| Recruiter.ExperienceLevel | client/src/Pages/Recruiter.js:134-141 | each of the three codes has its label, in both directions, and "Any" is given exactly for every other value |
| Recruiter.PrecedesSplit | client/src/Pages/Recruiter.js:148 | the comparator is a strict weak order: if a precedes c, every b comes after a or before c |
| Recruiter.Insert | client/src/Pages/Recruiter.js:147-148 | inserting keeps the multiset and keeps a ranked list ranked |
| Recruiter.InsertTied | client/src/Pages/Recruiter.js:147-148 | an inserted skill goes before every skill the comparator ties with it |
| Recruiter.SortByRank | client/src/Pages/Recruiter.js:147-148 | the sorted copy is a permutation of the input, ranked by proficiency descending (missing is 0) and then by name, and stable: skills the comparator ties keep their input order |
| Recruiter.TopSkills | client/src/Pages/Recruiter.js:143-150 | `[]` for absent or empty strengths; otherwise `slice(0, count)` many (default 4), ranked, drawn from the input (a sub-multiset), no copy left out ranks before a kept one, and among skills the comparator ties the kept ones are the earliest in the input |
| Recruiter.TopSkillsKeepsEarlierTwin | client/src/Pages/Recruiter.js:143-150 | of a skill with proficiency 0 and a same-named one without proficiency, a top-1 cut keeps the one listed first |
| Recruiter.TopSkillLeads | client/src/Pages/Recruiter.js:143-150 | with a positive count, the first top skill ranks at least as high as every skill of the profile |

## Left out

- HTTP itself: axios calls, URLs, headers, timeouts and the express wiring; the upstream services are function parameters.
- React state, effects, event listeners, rendering, navigation and localStorage; `server/controllers/*.js`, `server/routes/genome.js`, `server/server.js`, `client/src/App.js` and `client/src/Pages/Home.js` are not part of this model.
- Rate limiting, a username pattern check and a 504 or 404 mapping do not exist in the code and are not modelled.
- Numbers are integers: floating-point limits, `String(n)` in exponent notation (beyond 1e21) and non-finite values are not modelled.
- Request and reply fields of types other than those declared (arrays or objects as `keywords`, a non-string upstream error body, a `results` that is not a list or holds `null`) are not modelled; in the code these give a TypeError turned into a 500, or odd text.
- Text.Lower: folds only ASCII letters, not the full Unicode `toLowerCase`.
- Text.Less: code-point order stands for `localeCompare`, whose locale order is not visible in the code; it also differs from UTF-16 code-unit order between characters outside the Basic Multilingual Plane and U+E000 to U+FFFF.
- Text.Trim: strings are sequences of code points, not UTF-16 code units, so lengths of text outside the Basic Multilingual Plane differ.
- Suggestions.SuggestionsFor: `value.length > 1` counts UTF-16 code units, the model counts code points; a single character outside the Basic Multilingual Plane (one emoji) shows the (empty) suggestion list in the code and hides it in the model.
- Seeker.CountCountries: the counts are a map, whereas the code uses a plain object, so names that are `Object.prototype` properties behave differently there: a job in "constructor", "toString" or "valueOf" stores the inherited function's text followed by "1" (a string), and a job in "__proto__" is not counted at all, so the counts no longer sum to the number of jobs; the model counts these names like any other.
- Seeker.SortedCountries: stated on a map of counts, which has no insertion order; the order is fully determined because `Text.Less` is a strict total order, whereas `localeCompare` can return 0 for distinct names (a precomposed "é" and "e" followed by U+0301), and the code then keeps the `Object.entries` order, which the model does not capture.
- Recruiter.Deliver: the client's "Request failed with status code N" message is the HTTP client's own text, given here as it is documented, and no-response failures are not produced by it.
- The seeker page's failure path (`setError('Failed to fetch jobs. Please try again.')`) and `fetchGenome`'s message on the recruiter page are plain state updates with no logic and are not modelled.
- The input of `getTopSkills` is never reordered: in this value model no operation can change its input.

## Findings

| source | as written | input that shows it | evidently intended | confidence | as-written member | corrected member |
|---|---|---|---|---|---|---|
| client/src/Pages/Seeker.js:136-144 | the country filter renames only "columbia" and "united states", while the counts behind the country buttons also rename "usa" and "uk" | one job located in "usa": the button reads "USA (1)", and choosing it shows no jobs | the filter compares the same country name the counts use, so a button shows as many jobs as it counts | high, not executed | Seeker.CountryButtonHidesCountedJob | Seeker.CountryButtonShowsItsCount |
| client/src/Pages/Seeker.js:95-101 | the mount effect stores the profile with `setGenome` and then calls the `fetchJobs` of the first render, whose `genome` is still `null` | a stored profile whose strengths are ["Go"]: the first search is for "developer" | the first search uses the stored profile's strengths | medium, not executed | Seeker.MountFetchIgnoresProfile | Seeker.MountFetchUsesProfile |
