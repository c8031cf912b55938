# nexus-archive content layer, legacy redirects and audio player, in Dafny

This project models three parts of the nexus-archive site, a static archive
of podcast series, episodes and the people who appear on them:

- **The content resolver** (`src/data/index.ts`). At load time it reads the
  static export and builds lookup tables: series, episodes and media by id;
  person relations grouped by episode and by person; fringe and parent links;
  person slugs; global roles; and episode counts per series. Its queries
  resolve raw records into the records the pages read:
  - `getAllSeries`, `getSeriesBySlug`
  - `getAllEpisodes` (memoised), `getEpisodeBySlug`, `getEpisodesBySeries`
  - `getAllPeople`, `getPersonBySlug`, `getEpisodesByPerson`
- **The legacy-URL middleware** (`src/middleware.ts`). It normalises old
  episode URLs (`/episode/atn-123`, `/atn123`) to a slug. When an episode
  with that slug exists, it answers with a 301 redirect to
  `/episodes/{slug}/`.
- **The audio player** (`src/components/AudioPlayer.tsx`). This covers:
  - the helpers `parseDuration` and `formatTime`;
  - the playback controller of `useAudioPlayer`: CORS retry, audio-context
    set-up, play/pause/toggle, seek/skip, and the fallback to synthetic
    visualisation;
  - the native/custom player switch, which remembers its choice in
    `localStorage`.

Modules:

| module | file | what it holds |
|---|---|---|
| `Wrappers` | wrappers.dfy | `Option` |
| `Seqs` | seqs.dfy | generic `filter`, `map`, `find`, stable sort, `new Map(...)`, grouping and counting |
| `ContentTypes` | content_types.dfy | the raw export records and the resolved records |
| `Slugs` | slugs.dfy | `slugifyName`, `makeEpisodeSlug` |
| `Content` | content.dfy | the tables, the loops that fill them, the queries, and the `Site` object holding the episode memo |
| `Digits` | digits.dfy | decimal digits and `n.toString()` |
| `LegacyRedirect` | middleware.dfy | `normalizeSlug`, the two URL patterns, `onRequest` |
| `AudioTime` | audio_time.dfy | `parseDuration`, `formatTime` |
| `AudioPlayer` | audio_player.dfy | the playback controller and the player-type switch |

The model's structure:

- **Lookup tables.** Each table is a function of the export. The loops of
  `index.ts` are methods (`GroupLoop`, `RelationLoop`, `RoleLoop`,
  `CountLoop`, `BuildTables`), proved to build exactly those tables.
- **Playback controller.** Each handler of `useAudioPlayer` is a method of
  `AudioController` whose new state is a step function of the old state.
  The browser's decisions are parameters:
  - whether `new AudioContext()` succeeds;
  - whether `audio.play()` resolves;
  - the analyser's bytes;
  - the element's clock and length.
- **Player preference.** `PlayerPreference` does the same for the player
  switch.

The model follows the code where it disagrees with the repository's unit
tests or comments. Each disagreement is stated as a lemma:

- `makeEpisodeSlug` puts a hyphen between series slug and number, so
  episode slugs are `atn-1`, not the `atn1` the tests expect
  (`Slugs.EpisodeSlugDiffersFromTests`).
- The middleware normalises a dashed legacy slug (`atn-123`) to a
  hyphen-free form. A dashless one (`atn123`) is returned as it is, and it
  is hyphen-free exactly when the series prefix it matched is. Episode
  slugs always contain a hyphen. So an `/episode/atn-123` URL always falls
  through (`LegacyRedirect.DashedLegacyUrlFallsThrough`), and with
  hyphen-free series slugs the middleware never redirects to an episode
  page (`LegacyRedirect.LegacyUrlsNeverReachEpisodes`).
- `getAllSeries` sorts by episode count, descending and stably
  (`Content.AllSeriesOrder`), not by name as a test states: a series with
  more episodes comes before one with fewer, whatever their names
  (`Content.MoreEpisodesFirst`).

## Model

| member | source | states |
|---|---|---|
| Seqs.Filter | src/data/index.ts:99-100 | `filter` keeps only elements of the list that satisfy the predicate, keeps every element that does, and is never longer than the list |
| Seqs.FilterMultiset | src/data/index.ts:99-100 | `filter` keeps every satisfying element exactly as often as the list has it, and drops the others |
| Seqs.FilterWithKey | src/data/index.ts:188-190 | filtering commutes with taking the elements of one key, so a filter keeps the relative order of equal-key elements |
| Seqs.FilterAppend | src/data/index.ts:99-100 | filtering a concatenation is the concatenation of the filtered parts |
| Seqs.FilterKeepsOrder | src/data/index.ts:188-190 | filtering a list ordered by a key leaves it ordered |
| Seqs.MapSeq | src/data/index.ts:101-107 | `map` keeps the length; entry i is the function applied to element i |
| Seqs.FilterMapSpec | src/data/index.ts:137-148 | mapping to an entry or null and then dropping the nulls gives one entry per element that maps to a value, in order |
| Seqs.FirstIndex | src/data/index.ts:112 | `find` gives the first element that satisfies the predicate, or nothing exactly when no element does |
| Seqs.SortDesc | src/data/index.ts:108 | the sort keeps the length of the list |
| Seqs.SortDescPermutes | src/data/index.ts:108 | the descending sort is a permutation of its input |
| Seqs.SortDescSorted | src/data/index.ts:108 | the sort's result is non-increasing in the key |
| Seqs.SortDescStable | src/data/index.ts:108 | the sort is stable: elements with equal keys keep their input order |
| Seqs.SortDescFrom | src/data/index.ts:108 | every element of the sorted list is an element of the input |
| Seqs.IndexBy | src/data/index.ts:27 | `new Map(xs.map(x => [key(x), x]))` has every key of the list, and each key maps to an element of the list carrying that key |
| Seqs.IndexByLast | src/data/index.ts:27 | for a repeated key, the Map keeps the last element with that key |
| Seqs.GroupBy | src/data/index.ts:40-44 | every grouped key has a non-empty list no longer than the input |
| Seqs.GroupBySpec | src/data/index.ts:40-44 | a key is grouped exactly when some element has it; its list holds their values in order |
| Seqs.CountBy | src/data/index.ts:88-94 | every counted key has a count between 1 and the input length |
| Seqs.CountBySpec | src/data/index.ts:88-94 | a key is counted exactly when some element has it, and its count is the number of such elements |
| Seqs.CollectCount | src/data/index.ts:200 | a key's group is as long as the number of elements with that key |
| Seqs.CollectExists | src/data/index.ts:83 | `some` over a key's group holds exactly when some element with that key satisfies it |
| Slugs.ToLower | src/data/index.ts:16 | lowercasing keeps the length and maps every character through the ASCII lowercase map |
| Slugs.CollapseRuns | src/data/index.ts:17 | the replacement never lengthens the string |
| Slugs.TrimHyphens | src/data/index.ts:18 | the result is the string with at most one hyphen dropped from each end, and only a hyphen is ever dropped |
| Slugs.Slugify | src/data/index.ts:14-19 | `slugifyName` is never longer than the name |
| Slugs.CollapseRunsShape | src/data/index.ts:17 | replacing each run of characters outside `[a-z0-9]` with one hyphen leaves only `[a-z0-9]` and single hyphens, and keeps the letters and digits |
| Slugs.CollapseRunsFixed | src/data/index.ts:17 | the replacement changes nothing in a string that is already lowercase alphanumerics and single hyphens |
| Slugs.CollapseTwoWords | src/data/index.ts:17 | two words around a separator run become the words joined by one hyphen |
| Slugs.TrimHyphensSlug | src/data/index.ts:18 | stripping the leading and trailing hyphen of a collapsed string gives a slug with the same letters and digits |
| Slugs.TrimHyphensNoop | src/data/index.ts:18 | stripping changes nothing when neither end is a hyphen |
| Slugs.SlugifyIsSlug | src/data/index.ts:14-19 | `slugifyName` always gives a slug: `[a-z0-9]` words joined by single hyphens, with no hyphen at either end; its letters and digits are those of the lowercased name |
| Slugs.SlugifyIdempotent | src/data/index.ts:14-19 | slugifying a slug gives it back |
| Slugs.SlugifyExampleName | src/data/index.test.ts:17-19 | "Ryan Rampersad" becomes "ryan-rampersad" |
| Slugs.SlugifyExampleApostrophe | src/data/index.test.ts:21-23 | "O'Brien-Smith" becomes "o-brien-smith" |
| Slugs.SlugifyExampleTrim | src/data/index.test.ts:25-27 | "--hello--" becomes "hello" |
| Slugs.SlugifyExampleCollapse | src/data/index.test.ts:29-31 | "foo   bar" becomes "foo-bar" |
| Slugs.EpisodeSlug | src/data/index.ts:21-23 | an episode slug is the series slug, a hyphen and the number |
| Slugs.EpisodeSlugHasHyphen | src/data/index.ts:21-23 | every episode slug contains a hyphen |
| Slugs.EpisodeSlugDiffersFromTests | src/data/index.test.ts:34-41 | the code gives "atn-1" and "tf-130" where the tests expect "atn1" and "tf130" |
| Content.RelatedSlug | src/data/index.ts:61-65 | a relation yields a slug exactly when its related episode and that episode's series both exist |
| Content.RelationMapSpec | src/data/index.ts:57-72 | an episode has a fringe (parent) slug exactly when some fringe (parent) relation of it resolves |
| Content.RelationMapLast | src/data/index.ts:57-72 | the fringe (parent) slug is that of the last resolving relation |
| Content.HasHosted | src/data/index.ts:83 | `some(r => r.role === "host")` holds exactly when a link has the host role |
| Content.GlobalRoles | src/data/index.ts:80-85 | every person of the list gets a role |
| Content.GlobalRolesValue | src/data/index.ts:80-85 | the role recorded for a person is the one computed from their relations |
| Content.GlobalRoleIsHost | src/data/index.ts:79-85 | a person's global role is host exactly when some relation gives them the host role |
| Content.PersonLinksOfCollect | src/data/index.ts:36-44 | an episode's people links are its relations in export order (empty when none) |
| Content.EpisodeLinksOfCollect | src/data/index.ts:47-55 | a person's episode links are their relations in export order (empty when none) |
| Content.MediaIsLastRow | src/data/index.ts:31-33 | an episode's media is the last media row naming it |
| Content.PersonSlugIsLastName | src/data/index.ts:75-77 | a person's slug is the slugified name of the last person row with their id, and is a slug |
| Content.GroupLoop | src/data/index.ts:40-55 | the grouping loop builds exactly the grouped table |
| Content.RelationLoop | src/data/index.ts:60-72 | the relation loop builds exactly the fringe and parent tables |
| Content.RoleLoop | src/data/index.ts:81-85 | the role loop builds exactly the global-role table |
| Content.CountLoop | src/data/index.ts:88-94 | the counting loop builds exactly the per-series episode counts |
| Content.BuildTables | src/data/index.ts:27-94 | all the module-level tables, built by the loops, equal their specifications |
| Content.SeriesEpisodeCount | src/data/index.ts:88-94 | a series' count (`?? 0`) is the number of episodes naming that series |
| Content.AllSeriesFromExport | src/data/index.ts:98-109 | every listed series has an episode and is a raw series, resolved |
| Content.AllSeriesComplete | src/data/index.ts:98-109 | every raw series with an episode is listed, with its episode count |
| Content.AllSeriesOrder | src/data/index.ts:108 | the list is by episode count, descending and stable, and is a permutation of the filtered series |
| Content.AllSeries | src/data/index.ts:98-109 | the list has at most one entry per exported series |
| Content.MoreEpisodesFirst | src/data/index.test.ts:106-110 | a series with more episodes is listed before one with fewer, whatever their names, so the list is not in name order |
| Content.SeriesBySlug | src/data/index.ts:111-121 | `getSeriesBySlug` gives the first series with the slug, with its count, or undefined exactly when no series has it |
| Content.FindPerson | src/data/index.ts:139 | `data.people.find` by id gives the first person with that id, or none exactly when no person has it |
| Content.JoinPeopleSpec | src/data/index.ts:136-148 | an episode's people are its relations whose person exists, in order, each resolved with that relation's role |
| Content.JoinPeopleEntries | src/data/index.ts:137-148 | every listed person comes from one of the episode's relations, with its id and role |
| Content.JoinPeople | src/data/index.ts:136-148 | an episode has at most one person entry per relation |
| Content.ResolveEpisode | src/data/index.ts:123-135 | a resolved episode keeps the id, name, number, dates and series id; its series slug and name are those of the series the id table gives; its slug is `series-number`; it has media exactly when a media row names it |
| Content.ResolveEpisodeSeriesRow | src/data/index.ts:27 | the series slug and name of a resolved episode are those of the last series row with its series id |
| Content.ResolveEpisodeMediaRow | src/data/index.ts:31-33 | a resolved episode's media carries the type, length, size and url of the last media row naming it |
| Content.ResolveEpisodeLinks | src/data/index.ts:136-166 | a resolved episode has a fringe (parent) slug exactly when a fringe (parent) relation resolves; its people are the joined relations |
| Content.ResolveEpisodes | src/data/index.ts:174-175 | resolving a list keeps its length |
| Content.ResolveEpisodesAt | src/data/index.ts:174-175 | entry i of the resolved list is episode i resolved |
| Content.AllEpisodesOrder | src/data/index.ts:172-182 | `getAllEpisodes` is newest first and stable, and a permutation of the resolved export episodes |
| Content.AllEpisodes | src/data/index.ts:172-182 | `getAllEpisodes` lists as many episodes as the export has |
| Content.AllEpisodesResolved | src/data/index.ts:172-182 | every listed episode is a raw episode, resolved |
| Content.AllEpisodeSlugsHaveHyphen | src/data/index.ts:125 | every episode slug contains a hyphen |
| Content.FindEpisode | src/data/index.ts:184-186 | `getEpisodeBySlug` gives the first episode with the slug, or undefined exactly when none has it |
| Content.EpisodesBySeriesSpec | src/data/index.ts:188-190 | `getEpisodesBySeries` keeps exactly that series' episodes, each as often as the export resolves it, newest first, with equal dates in export order |
| Content.FilterBySeries | src/data/index.ts:188-190 | the filter keeps only episodes of the series from the list, and every episode of the series in it |
| Content.ResolvePeople | src/data/index.ts:193-201 | resolving people keeps the length |
| Content.ResolvePeopleAt | src/data/index.ts:193-201 | entry i is person i resolved |
| Content.PersonOfSpec | src/data/index.ts:194-201 | a resolved person is a host exactly when some relation gives them the host role, and their count is their number of relations |
| Content.PersonSlugsAreSlugs | src/data/index.ts:74-77 | every person slug in the table is a slug |
| Content.AllPeopleOrder | src/data/index.ts:192-203 | `getAllPeople` lists every person, by episode count descending and stably, as a permutation of the resolved people |
| Content.AllPeople | src/data/index.ts:192-203 | `getAllPeople` lists as many people as the export has |
| Content.AllPeopleResolved | src/data/index.ts:192-203 | every listed person is a raw person, resolved |
| Content.AllPeopleSlugs | src/data/index.ts:197 | every listed person's slug is a slug |
| Content.PersonBySlug | src/data/index.ts:205-207 | `getPersonBySlug` gives the first listed person with the slug, or undefined exactly when none has it |
| Content.FindPersonBySlug | src/data/index.ts:210-213 | the lookup by slug gives the first person whose slug matches, or none exactly when no person's slug matches |
| Content.JoinEpisodesSpec | src/data/index.ts:215-232 | a person's episodes are their relations whose episode exists, in order, each resolved with that relation's role |
| Content.JoinEpisodes | src/data/index.ts:215-232 | a person has at most one episode entry per relation |
| Content.EpisodesByPersonSpec | src/data/index.ts:209-237 | `getEpisodesByPerson` is newest first; for a known slug it is a permutation of the joined relations, and equal dates keep relation order |
| Content.EpisodesByPerson | src/data/index.ts:209-213 | an unknown slug gives the empty list |
| Content.Site.constructor | src/data/index.ts:169-170 | the site starts from the export with an empty episode cache |
| Content.Site.GetAllEpisodes | src/data/index.ts:169-182 | the first call computes and caches the sorted list; later calls return the cached list unchanged |
| Content.Site.GetEpisodeBySlug | src/data/index.ts:184-186 | the result is the first cached episode with the slug |
| Content.Site.GetEpisodesBySeries | src/data/index.ts:188-190 | the result is the cached list filtered by series slug |
| Digits.NatToString | src/components/AudioPlayer.tsx:23 | `n.toString()` is a non-empty run of digits |
| Digits.NatToStringValue | src/components/AudioPlayer.tsx:23 | reading back `n.toString()` gives n |
| Digits.NatToStringCanonical | src/components/AudioPlayer.tsx:23 | `n.toString()` starts with '0' exactly when n is 0 |
| Digits.LeadingZeroValue | src/components/AudioPlayer.tsx:23 | padding with a leading zero keeps the value |
| LegacyRedirect.DashParts | src/middleware.ts:15 | `/^([a-z]+)-(\d+)$/` matches exactly when the slug is letters, a hyphen and digits, and then gives those two parts |
| LegacyRedirect.NormalizeSlug | src/middleware.ts:13-30 | a "letters-digits" slug always normalises; a result is the raw slug or the raw slug with one inner hyphen removed |
| LegacyRedirect.PrefixMatch | src/middleware.ts:21-28 | the dashless form is accepted, unchanged, exactly when some series slug is a prefix followed by one or more digits |
| LegacyRedirect.NormalizeDashed | src/middleware.ts:14-18 | "letters-digits" normalises to "lettersdigits" |
| LegacyRedirect.NormalizeDashless | src/middleware.ts:20-29 | without the dashed form, a slug is kept exactly when some series prefix fits, and otherwise is null |
| LegacyRedirect.NormalizeOrderIndependent | src/middleware.ts:21-28 | the result does not depend on the order of the series slugs |
| LegacyRedirect.NormalizeEndsInDigit | src/middleware.ts:13-30 | a normalised slug ends in a digit |
| LegacyRedirect.DashedSlugHasNoHyphen | src/middleware.ts:14-18 | a normalised dashed slug has no hyphen |
| LegacyRedirect.NormalizedSlugHasNoHyphen | src/middleware.ts:13-30 | with hyphen-free series slugs, no normalised slug has a hyphen |
| LegacyRedirect.EpisodeSegment | src/middleware.ts:41 | `/^\/episode\/([^/]+)\/?$/` gives the non-empty, slash-free segment of `/episode/{seg}` with an optional trailing slash |
| LegacyRedirect.EpisodeSegmentOf | src/middleware.ts:41 | every non-empty, slash-free segment matches the episode pattern, with or without the trailing slash, and is the captured group |
| LegacyRedirect.RootSegment | src/middleware.ts:50 | `/^\/([a-z]+\d+)\/?$/` gives a letters-then-digits segment of `/{seg}` with an optional trailing slash |
| LegacyRedirect.RootSegmentOf | src/middleware.ts:50 | every letters-then-digits segment matches the root pattern, with or without the trailing slash, and is the captured group |
| LegacyRedirect.RootSkipsEpisodePaths | src/middleware.ts:41-50 | an `/episode/...` path never matches the root pattern |
| LegacyRedirect.Route | src/middleware.ts:32-59 | every redirect is a 301 to a path under `/episodes/` ending in '/' |
| LegacyRedirect.RouteEpisodeList | src/middleware.ts:36-38 | `/episode` and `/episode/` redirect to `/episodes/` |
| LegacyRedirect.RouteRedirectsToExisting | src/middleware.ts:40-56 | any other redirect goes to the page of an existing episode whose slug is the normalised segment |
| LegacyRedirect.RouteEpisodePath | src/middleware.ts:40-47 | `/episode/{seg}` redirects when the normalised segment names an episode |
| LegacyRedirect.RouteRootPath | src/middleware.ts:49-56 | `/{seg}` redirects when the normalised segment names an episode |
| LegacyRedirect.RootIsNotEpisodeList | src/middleware.ts:36-56 | a root-pattern path is never the episode-list path |
| LegacyRedirect.RouteFallsThrough | src/middleware.ts:58 | when neither pattern leads to an existing episode, the request goes to `next()` |
| LegacyRedirect.OnRequest | src/middleware.ts:32-59 | `onRequest` only redirects with 301, and every redirect except the episode list's goes to the page of an existing episode |
| LegacyRedirect.SeriesSlugsOrder | src/middleware.ts:5-7 | the series slugs are longest first, as a permutation of the listed series' slugs |
| LegacyRedirect.SeriesSlugs | src/middleware.ts:5-7 | there is one slug per listed series |
| LegacyRedirect.SeriesSlugsFromExport | src/middleware.ts:5-7 | every series slug used is a slug of an export series |
| LegacyRedirect.DashedEpisodePath | src/middleware.ts:41-50 | `/episode/letters-digits` matches the episode pattern and not the root one |
| LegacyRedirect.DashedLegacyUrlFallsThrough | src/middleware.ts:13-47 | `/episode/letters-digits` is never redirected: its normalised slug has no hyphen, and every episode slug has one |
| LegacyRedirect.RouteWithoutMatches | src/middleware.ts:32-59 | when no normalised slug names an episode, the only redirect is the episode-list one |
| LegacyRedirect.HyphenFreeSlugsNeverFound | src/middleware.ts:43-56 | no normalised slug matches a hyphenated episode slug |
| LegacyRedirect.LegacyUrlsNeverReachEpisodes | src/middleware.ts:32-59 | with hyphen-free series slugs, every request is either passed on or sent to `/episodes/` |
| AudioTime.SplitColon | src/components/AudioPlayer.tsx:12 | `split(":")` always gives at least one field |
| AudioTime.SplitColonSpec | src/components/AudioPlayer.tsx:12 | the fields hold no colon, and joining them with colons gives the string back |
| AudioTime.SplitJoin | src/components/AudioPlayer.tsx:12 | splitting colon-joined, colon-free fields gives the fields back |
| AudioTime.ParseDuration | src/components/AudioPlayer.tsx:10-16 | null and "" give 0; any field count other than two or three gives a number (never NaN) |
| AudioTime.ParseHours | src/components/AudioPlayer.tsx:13 | "h:m:s" gives h·3600 + m·60 + s |
| AudioTime.ParseMinutes | src/components/AudioPlayer.tsx:14 | "m:s" gives m·60 + s |
| AudioTime.ParseSeconds | src/components/AudioPlayer.tsx:15 | one field gives its value, or 0 when it is not a number |
| AudioTime.ParseManyFields | src/components/AudioPlayer.tsx:12-15 | four or more fields give the first field's value, or 0 when it is not a number |
| AudioTime.ParseNotANumber | src/components/AudioPlayer.tsx:12-14 | "m:s" is NaN exactly when one of its fields is not a number |
| AudioTime.ParseHoursNotANumber | src/components/AudioPlayer.tsx:12-13 | "h:m:s" is NaN exactly when one of its fields is not a number |
| AudioTime.ToNumber | src/components/AudioPlayer.tsx:12 | `Number(field)` is NaN exactly when the field has a character other than a digit |
| AudioTime.ToNumberNatToString | src/components/AudioPlayer.tsx:12-23 | `Number(n.toString())` is n |
| AudioTime.Pad2Value | src/components/AudioPlayer.tsx:23 | `padStart(2, "0")` keeps the value and gives at least two digits, exactly two below 100 |
| AudioTime.Pad2 | src/components/AudioPlayer.tsx:23 | `padStart(2, "0")` puts in front of the string exactly as many zeros as make it two characters long, and none when it already is |
| AudioTime.FormatTime | src/components/AudioPlayer.tsx:18-25 | `formatTime` prints at least "m:ss" under an hour and at least "h:mm:ss" from an hour on |
| AudioTime.FormatTimeFields | src/components/AudioPlayer.tsx:18-25 | `formatTime` prints two fields under an hour and three from an hour on; every field after the first has two digits; the fields are the hours, the minutes within the hour and the seconds within the minute |
| AudioTime.FormatTimeRoundTrip | src/components/AudioPlayer.tsx:10-25 | `parseDuration(formatTime(n))` is n for every whole n |
| AudioTime.ParseDurationEmpty | src/components/AudioPlayer.test.ts:5-11 | null and "" give 0 |
| AudioTime.ParseDurationHoursExample | src/components/AudioPlayer.test.ts:13-15 | "1:30:00" gives 5400 |
| AudioTime.ParseDurationMinutesExample | src/components/AudioPlayer.test.ts:17-19 | "45:30" gives 2730 |
| AudioTime.ParseDurationSecondsExample | src/components/AudioPlayer.test.ts:21-23 | "90" gives 90 |
| AudioTime.FormatTimeExamples | src/components/AudioPlayer.test.ts:27-37 | 5, 65 and 0 print as "0:05", "1:05" and "0:00" |
| AudioTime.FormatTimeHoursExample | src/components/AudioPlayer.test.ts:39-41 | 3661 prints as "1:01:01" |
| AudioPlayer.MediaError | src/components/AudioPlayer.tsx:52-62 | the first error with `crossOrigin` set drops `crossOrigin`, records the CORS failure, turns on synthetic visualisation and keeps the state; any other error is the "error" state |
| AudioPlayer.InitAudioContextStep | src/components/AudioPlayer.tsx:80-98 | nothing changes once a context exists, CORS has failed or synthetic visualisation is on; otherwise a context is made, or synthetic visualisation turns on when that fails |
| AudioPlayer.BeginPlay | src/components/AudioPlayer.tsx:100-109 | `play()` sets up the context and then enters "loading" |
| AudioPlayer.FinishPlay | src/components/AudioPlayer.tsx:110-115 | the player is "playing" exactly when `audio.play()` resolved, and "error" exactly when it threw |
| AudioPlayer.PauseStep | src/components/AudioPlayer.tsx:118-121 | `pause()` enters "paused"; so does the end of the media (line 51) |
| AudioPlayer.TogglePlayStep | src/components/AudioPlayer.tsx:123-126 | toggling pauses exactly when playing, and starts loading exactly otherwise |
| AudioPlayer.Clamp | src/components/AudioPlayer.tsx:131 | the target is never negative and never past a known positive length; an in-range target is kept; a NaN or zero duration gives no upper bound |
| AudioPlayer.ClampIdempotent | src/components/AudioPlayer.tsx:131 | clamping a clamped time changes nothing |
| AudioPlayer.SeekStep | src/components/AudioPlayer.tsx:128-134 | `seek` moves the element and the shown time to the clamped target, resets the zero-frame count, and changes nothing else |
| AudioPlayer.SeekIdempotent | src/components/AudioPlayer.tsx:128-134 | seeking twice to the same target is the same as seeking once |
| AudioPlayer.SkipStep | src/components/AudioPlayer.tsx:136-141 | a skip lands between 0 and the known length, exactly at position + delta when that is in range |
| AudioPlayer.CheckFrequencyDataStep | src/components/AudioPlayer.tsx:144-158 | frames are ignored unless playing with the real visualisation; an all-zero frame adds one to the count and switches to synthetic visualisation once the count passes 60; any other frame resets the count |
| AudioPlayer.SilentFramesCount | src/components/AudioPlayer.tsx:144-158 | from a fresh count, 60 silent frames keep the real visualisation and the 61st switches it off |
| AudioPlayer.MountedInv | src/components/AudioPlayer.tsx:37-45 | the freshly mounted player satisfies the controller invariant |
| AudioPlayer.Step | src/components/AudioPlayer.tsx:49-158 | every handler keeps the invariant (CORS failed exactly when `crossOrigin` is cleared, and then synthetic visualisation is on; the zero-frame count passes 60 only with synthetic visualisation on, and never passes 61) and never clears the CORS-failure flag or synthetic visualisation |
| AudioPlayer.Run | src/components/AudioPlayer.tsx:49-158 | every sequence of events keeps the invariant, and once set, the CORS-failure flag and synthetic visualisation stay set |
| AudioPlayer.RetryOnce | src/components/AudioPlayer.tsx:52-62 | the CORS retry happens at most once: after it, the next error, whatever came between, is the "error" state |
| AudioPlayer.AudioController.constructor | src/components/AudioPlayer.tsx:34-46 | the hook starts idle, with `crossOrigin` set, no context and nothing loaded |
| AudioPlayer.AudioController.OnTimeUpdate | src/components/AudioPlayer.tsx:49 | the shown time follows the element's clock |
| AudioPlayer.AudioController.OnLoadedMetadata | src/components/AudioPlayer.tsx:50 | the real duration is recorded |
| AudioPlayer.AudioController.OnEnded | src/components/AudioPlayer.tsx:51 | as `PauseStep`, and keeps the invariant |
| AudioPlayer.AudioController.OnError | src/components/AudioPlayer.tsx:52-62 | as `MediaError`, and keeps the invariant |
| AudioPlayer.AudioController.InitAudioContext | src/components/AudioPlayer.tsx:80-98 | as `InitAudioContextStep`, and keeps the invariant |
| AudioPlayer.AudioController.Play | src/components/AudioPlayer.tsx:100-109 | as `BeginPlay`, and keeps the invariant |
| AudioPlayer.AudioController.PlaySettled | src/components/AudioPlayer.tsx:110-115 | as `FinishPlay`, and keeps the invariant |
| AudioPlayer.AudioController.Pause | src/components/AudioPlayer.tsx:118-121 | as `PauseStep`, and keeps the invariant |
| AudioPlayer.AudioController.TogglePlay | src/components/AudioPlayer.tsx:123-126 | as `TogglePlayStep`, and keeps the invariant |
| AudioPlayer.AudioController.Seek | src/components/AudioPlayer.tsx:128-134 | as `SeekStep`, and keeps the invariant |
| AudioPlayer.AudioController.Skip | src/components/AudioPlayer.tsx:136-141 | a seek relative to the element's position, and keeps the invariant |
| AudioPlayer.AudioController.CheckFrequencyData | src/components/AudioPlayer.tsx:144-158 | as `CheckFrequencyDataStep`, and keeps the invariant |
| AudioPlayer.StoreUseNative | src/components/AudioPlayer.tsx:253-259 | storing the choice touches no key other than "nexus.player" |
| AudioPlayer.StoredUseNative | src/components/AudioPlayer.tsx:242-248 | the initial flag is false when storage throws, and true only when "native" is stored under "nexus.player" |
| AudioPlayer.TogglePlayerTypeStep | src/components/AudioPlayer.tsx:250-262 | the switch flips the flag; where storage works, "native" is stored exactly when the new flag is true, so a reload reads the new flag back |
| AudioPlayer.ToggleTwice | src/components/AudioPlayer.tsx:242-262 | switching twice restores the flag and what a reload reads |
| AudioPlayer.PlayerPreference.constructor | src/components/AudioPlayer.tsx:242-248 | the initial flag is whether "native" is stored, and false when storage throws |
| AudioPlayer.PlayerPreference.TogglePlayerType | src/components/AudioPlayer.tsx:250-262 | as `TogglePlayerTypeStep` |

## Left out

- The JSON import of the export (line 1 of `src/data/index.ts`) is not modelled. The export is a parameter of every query (`RawExport`).
- Date parsing is not modelled. `created_at` is an integer timestamp, so `new Date(..).getTime()` on an unparsable date (NaN, which makes the comparator inconsistent) is not covered.
- `toLowerCase` lowercases ASCII letters only. Unicode case mapping is not modelled, because only its effect on `[a-z0-9]` matters for slugs and that needs a Unicode table.
- `gravatarUrl`, `processContent`, `SITE_TITLE` and `EPISODES_PER_PAGE` are not modelled. The unit tests import them, but they are not defined in the `index.ts` modelled here.
- `getAllSeries` is modelled as the code sorts it, by episode count. The unit test's alphabetical-order claim, with its `localeCompare`, is not modelled.
- Content.ResolveEpisode: requires the episode's series to exist (`WellFormed` for the lists). The source's `seriesById.get(..)!` throws a TypeError there, and the model does not produce that exception.
- Content.EpisodesByPerson: requires that every related, existing episode has an existing series (`PersonEpisodesResolvable`), for the same reason at line 220.
- The Astro plumbing is not modelled: `defineMiddleware`, `context.url` and `context.redirect`, and `next()`. These become the `Response` datatype and the `path` parameter.
- The middleware's module-level `seriesSlugs` constant is not modelled as computed once at import. It is modelled as a function of the export.
- Rendering is not modelled: the waveform canvas, `requestAnimationFrame`, the synthetic bars, the native `<audio>` player, icons and the file-size label. These are UI with no state logic.
- The Web Audio graph is not modelled: the analyser node, `fftSize` and the media source. Only whether creating the context succeeded matters to the controller, and that is a parameter.
- The `await ctx.resume()` of a suspended context is not modelled. Neither is any interleaving between the two halves of `play()`: the model splits `play()` into `Play` and `PlaySettled`, and any events may come between them.
- The `if (!audio) return` guards are not modelled. The model starts from the mounted element, so the audio element always exists.
- The cleanup effect is not modelled: pausing, clearing `src`, and closing the context on unmount or on a change of `src`.
- AudioPlayer.RetryOnce: holds for one mount of the element, and so do `AudioPlayer.Step` and `AudioPlayer.Run` with their invariant. When `src` changes, the mount effect (`AudioPlayer.tsx` lines 42-45, dependencies at line 78) creates a new element with `crossOrigin = "anonymous"`, while `corsFailedRef` (line 39) stays true and `ctxRef` keeps the closed context (lines 76 and 81). The model has no such remount event, so the retry and the invariant are per element, not per component.
- Reassigning `audio.src` on the CORS retry makes the browser reload the media. The model does not reset the position or the duration then, because that is browser behaviour, not code of this repository.
- React's closures over `state` and `useSyntheticViz` are not modelled. The model reads the current state, where a stale callback could see an older render.
- AudioPlayer.Clamp: times are real numbers. NaN and infinite seek targets are not modelled, and neither is an infinite `audio.duration` (a live stream). A missing duration (NaN) and a zero duration both leave the target without an upper bound, as `|| Infinity` does.
- AudioTime.ParseDuration: a field counts as a number only when it is a run of ASCII digits ("" is 0). `Number()`'s whitespace trimming, signs, decimals, exponents, hex and "Infinity" all become NaN in the model.
- AudioTime.FormatTimeRoundTrip: holds in the model only. JavaScript numbers are IEEE doubles, and the model uses unbounded `nat` and `real`. Above 2^53 a double no longer holds every whole number, and from 1e21 on `toString` prints exponent form, which `parseDuration` reads as NaN.
- AudioTime.FormatTime: is modelled on whole non-negative seconds. The `Math.floor` of fractional seconds (`formatTime(65.9)`) and negative inputs are not modelled.
- The storage model treats `localStorage` as either working for every call or throwing on every call (`None`). A `setItem` that fails only on quota is not distinguished.
