# Video catalog: a Dafny model

This project models the core of a small single-page video catalog written in
TypeScript and React. Videos come from markdown documents. Each document has a
`# ` title line and `**Label:**` lines for the URL, thumbnail, duration, tags,
category and description. A line-oriented parser turns these documents into
`Video` records. The records are grouped by category, looked up by slug, ranked
for recommendations, filtered by tag and search text, and summarised on an
analytics page. Per-browser state lives in `localStorage`: favourites, watch
progress, view counts, playlists, comments and the colour theme.

The model has one Dafny module per source file, plus three shared modules:

| module | models |
|---|---|
| `Wrappers`, `Text`, `Seqs` | `Option`/`Result`; the JavaScript string operations (`trim`, `split`, `toLowerCase`, `Number`, the `\s` class); the array operations (`filter`, `slice`, stable `sort`) |
| `Slug` | `createSlug` |
| `Videos` | `lib/videos.ts`: the parser, catalog assembly, `getVideoBySlug`, the category groupings, the static/file merge |
| `AddVideo` | `pages/AddVideoPage.tsx`: form validation, the markdown template it generates, and the round trip through the parser |
| `Favorites`, `Progress`, `Analytics`, `Theme`, `Playlists`, `Comments` | the `lib/` stores over `localStorage`, as classes whose fields stand for the stored values |
| `Recommendations` | `lib/recommendations.ts`: duration parsing, the scoring rules, ranking |
| `HomePage`, `WatchPage`, `ManageVideosPage`, `AnalyticsPage` | the pure computations of those pages and the state their effects change |
| `SearchFilters` | `components/SearchFilters.tsx`: the filter panel's state and the filters it reports |

State that the source changes in place is modelled as state: each store is a
`class`, and its methods have `modifies` clauses and state the new contents
exactly. The contents are given by a specification function, and lemmas about
that function state what the source promises. Most loops (`for … of`,
`forEach`, `push`) become methods with loop invariants. Each such method is
proved against the function that specifies it. The one exception is the
`for … of` inside the recursive search `findComment` (lib/comments.ts:55-62).
It is modelled by the recursive function `Comments.FindComment`. Computations without effects are functions and lemmas.

Time, `new Date()`, `Date.now()` and generated ids are parameters. Storage
reads and writes become field reads and assignments.

`createSlug` has two copies, in lib/videos.ts:7-15 and pages/AddVideoPage.tsx:6-14.
They are identical character for character, so `Slug.CreateSlug` models both.
Where the source's comments and its code disagree, the model follows the code.

## Model

| member | source | states |
|---|---|---|
| Slug.ReplaceAmpersands | lib/videos.ts:11 | spelling `&` as "and" brings in no upper-case letter |
| Slug.DropPunctuation | lib/videos.ts:12 | on lower-cased text, every character kept is a letter, digit, `-` or a separator |
| Slug.CollapseSeparators | lib/videos.ts:13 | the result never holds `--`; on input of slug characters and separators the result holds slug characters only; after a run it does not start with `-` |
| Slug.TrimLeadingHyphens | lib/videos.ts:14 | the result is a suffix of the input and does not start with `-` |
| Slug.TrimTrailingHyphens | lib/videos.ts:14 | the result is a prefix of the input and does not end with `-` |
| Slug.TrimmedIsSlug | lib/videos.ts:13-14 | stripping the hyphens from both ends of a collapsed string leaves a slug |
| Slug.CreateSlug | lib/videos.ts:7-15 | an empty title gives ""; every result is a slug: lower-case letters, digits and single hyphens, with no hyphen at either end |
| Slug.ReplaceAmpersandsNoop | lib/videos.ts:11 | text without `&` passes unchanged |
| Slug.DropPunctuationNoop | lib/videos.ts:12 | text of slug characters passes unchanged |
| Slug.CollapseSeparatorsNoop | lib/videos.ts:13 | text of slug characters with no `--` passes unchanged |
| Slug.SlugIsFixpoint | lib/videos.ts:7-15 | a slug is its own slug |
| Slug.CreateSlugIdempotent | lib/videos.ts:7-15 | applying `createSlug` twice gives the same as applying it once |
| Videos.TrimAll | lib/videos.ts:20 | one trimmed line per split line, in order |
| Videos.SplitTagsAreTags | lib/videos.ts:34-35 | every parsed tag is non-empty, trimmed and free of commas |
| Videos.Classify | lib/videos.ts:24-44 | the branch a line takes: the line starts with that branch's label; it is a description line exactly when it starts with neither `**` nor `#` |
| Videos.Finish | lib/videos.ts:47-55 | a draft is accepted exactly when title, URL, thumbnail and duration are all present and non-empty; the upload date is today's |
| Videos.ParseLinesKeepsSlug | lib/videos.ts:23-45 | throughout the loop the slug is absent with the title and otherwise is `createSlug` of the current title |
| Videos.ParseMarkdown | lib/videos.ts:18-60 | an accepted document has a non-empty title, URL, thumbnail and duration, and today's upload date |
| Videos.ParsedSlugMatchesTitle | lib/videos.ts:25-26 | the slug of a parsed video is `createSlug` of its title |
| Videos.ParseMarkdownToVideo | lib/videos.ts:18-60 | the parser's loop computes `ParseMarkdown` |
| Videos.ApplyLine | lib/videos.ts:24-44 | one pass through the if-chain is one `Step` |
| Videos.ClassifyLabelled | lib/videos.ts:24-32 | a line that starts with the label of a required field takes that field's branch |
| Videos.StepSetsOnlyLabelled | lib/videos.ts:24-44 | a line changes a required field only when it takes that field's branch, and then sets it to the line's value |
| Videos.ParseLinesWithoutLabel | lib/videos.ts:23-45 | if no line carries a field's label, the loop leaves that field as it was |
| Videos.MissingFieldFails | lib/videos.ts:51-53 | a document with no line for one of the four required labels is rejected |
| Videos.ParseLinesAppend | lib/videos.ts:23-45 | the loop over two blocks of lines is the loop over the first, then the second |
| Videos.LastLabelledLineWins | lib/videos.ts:24-32 | for the four required fields (title, URL, thumbnail, duration): when the label appears more than once, the last such line decides the field |
| Videos.ClassifyTagsCategory | lib/videos.ts:24-37 | a line starting with `**Tags:**` or `**Category:**` takes that branch, no earlier branch catching it |
| Videos.ParseLinesKeepsTagsCategory | lib/videos.ts:33-37 | lines without the `**Tags:**` label leave the tags as they were, and lines without the `**Category:**` label the category |
| Videos.ParseLinesAround | lib/videos.ts:23-45 | the loop over all lines is the loop up to line `i`, then line `i`, then the rest |
| Videos.StepTagsCategory | lib/videos.ts:33-37 | a `**Tags:**` line sets the tags to the trimmed non-empty comma pieces of its value, and a `**Category:**` line sets the category to its trimmed value |
| Videos.LastTagsLineWins | lib/videos.ts:33-35 | the last `**Tags:**` line decides the tags, as the trimmed non-empty comma pieces of its value |
| Videos.LastCategoryLineWins | lib/videos.ts:36-37 | the last `**Category:**` line decides the category, as its trimmed value |
| Videos.StepTextLine | lib/videos.ts:40-44 | one unlabelled line starts the description when it is undefined and otherwise appends to it after a newline; nothing else changes |
| Videos.TextLinesAccumulate | lib/videos.ts:40-44 | unlabelled text lines do not overwrite: they are joined by newlines onto the description (or start it when it is undefined), and no other field changes |
| Videos.AddCategory | lib/videos.ts:148-151 | the category is the one given; slug, title and tags are the parsed ones |
| Videos.EntryVideo | lib/videos.ts:235-238 | a static entry gives at most one video, filed under the entry's category |
| Videos.Catalog | lib/videos.ts:234-241 | there are no more videos than static entries |
| Videos.CatalogAppend | lib/videos.ts:235-238 | the catalog of two lists of entries is the two catalogs concatenated |
| Videos.CatalogCategories | lib/videos.ts:235-238 | every video's category is the category of some entry; a `**Category:**` line in the document is ignored |
| Videos.AllVideosSlugs | lib/videos.ts:234-241 | every catalog video's slug is `createSlug` of its title |
| Videos.EntryVideoSlug | lib/videos.ts:235-238 | the video of one entry has the slug of its title |
| Videos.FindBySlug | lib/videos.ts:260-263 | absent exactly when no video has the slug; otherwise the first video that has it |
| Videos.FindBySlugAppend | lib/videos.ts:262 | a search of two lists answers from the first when it holds the slug, from the second otherwise |
| Videos.AddToGroup | lib/videos.ts:271-274 | the categories after a push are the old ones plus the video's |
| Videos.AddToGroupSize | lib/videos.ts:271-274 | a push adds exactly one video over all groups |
| Videos.AddToGroupShape | lib/videos.ts:271-274 | the video is appended to its category's group, or a new group holding just it is added at the end; every other group is unchanged |
| Videos.AddToGroupExisting | lib/videos.ts:274 | with the video's category present, only that group changes: the video is appended to it |
| Videos.AddToGroupNew | lib/videos.ts:271-274 | with the video's category absent, a group holding just the video is appended |
| Videos.AddToGroupDistinct | lib/videos.ts:271-273 | a push never creates a second group for a category |
| Videos.AddToGroupMatches | lib/videos.ts:268-276 | pushing one more video keeps every group equal to the videos of its category, in order |
| Videos.GroupByCategoryCorrect | lib/videos.ts:283-290 | one non-empty group per category that occurs; each group is exactly the videos of its category in catalog order; the groups hold every video once |
| Videos.VideosByCategory | lib/videos.ts:265-279 | the method's loop builds the grouping of the parsed catalog |
| Videos.CatalogGroupStep | lib/videos.ts:268-276 | one entry either pushes its video into the grouping or, when it does not parse, changes nothing |
| Videos.FreshVideos | lib/videos.ts:251-255 | every kept video is a file video whose slug is not among the static slugs |
| Videos.FreshVideosAppend | lib/videos.ts:251-255 | the de-duplication of two lists is the two de-duplications concatenated |
| Videos.MergeWithStatic | lib/videos.ts:243-258 | the merged list is the static videos followed by the file videos with new slugs, in order |
| Videos.StaticVideosWin | lib/videos.ts:247-255 | for a slug the static catalog already has, lookup in the merged list finds the static video |
| Videos.SortGroups | lib/videos.ts:293-297 | every group is re-ordered newest first; the groups and their order are kept |
| Videos.VideosByCategoryWithDynamic | lib/videos.ts:281-300 | the method builds the grouping of the merged catalog with each group sorted newest first |
| Videos.PushByCategory | lib/videos.ts:285-290 | the push loop builds `GroupByCategory` of the videos |
| Videos.PushVideo | lib/videos.ts:286-289 | one push extends the grouping of the videos seen so far by one video |
| Videos.SortEachGroup | lib/videos.ts:293-297 | the sorting loop sorts every group |
| Videos.GroupNewestFirstCorrect | lib/videos.ts:281-300 | each group is non-empty and sorted by upload date, newest first. It is a permutation of its category's videos, and videos with the same date keep catalog order (the sort is stable) |
| AddVideo.FirstFailure | pages/AddVideoPage.tsx:41-49 | the index reported is one of the validations |
| AddVideo.FirstFailureSpec | pages/AddVideoPage.tsx:41-49 | no failure is reported exactly when every validation passes; validation `k` is reported exactly when it fails and every validation before it passes |
| AddVideo.ValidateForm | pages/AddVideoPage.tsx:41-49 | the form is valid exactly when title, URL, thumbnail and duration are non-blank after trimming and an actress is selected |
| AddVideo.ValidateFormReportsFirstFailure | pages/AddVideoPage.tsx:43-47 | the message returned is the message of the first failing validation, in the order title, URL, thumbnail, duration, actress |
| AddVideo.DefaultFormNeedsTitle | pages/AddVideoPage.tsx:17-25 | the initial form is rejected with "Title is required" |
| AddVideo.DescriptionOrDot | pages/AddVideoPage.tsx:74 | the description written is never empty, and is the one entered when there is one |
| AddVideo.BuildVideoObject | pages/AddVideoPage.tsx:65-87 | the slug is `createSlug` of the title and is a slug; the category is the actress; the date is today's; the description is non-empty; every tag is non-empty, trimmed and free of commas |
| AddVideo.ReplaceFirst | pages/AddVideoPage.tsx:91 | `replace(' ', '-')` changes only the first space, and nothing when there is none |
| AddVideo.StoragePathShape | pages/AddVideoPage.tsx:90-98 | the path is `lib/data/<actress with its first space as ->/<slug>.md`; the folder name has the actress's length and keeps all her non-space characters |
| AddVideo.Submit | pages/AddVideoPage.tsx:51-134 | a submission is rejected exactly when validation fails, with the validation message; otherwise it uploads the generated markdown to the storage path, with the video's slug and category |
| AddVideo.SplitJoin | pages/AddVideoPage.tsx:73 | splitting on a separator that none of the parts contains undoes joining with it |
| AddVideo.SplitTagsOfJoin | pages/AddVideoPage.tsx:65-73 | parsing the joined tag list gives back the tags |
| AddVideo.ValidateSingleLineForm | pages/AddVideoPage.tsx:41-49 | for a form of trimmed single-line fields, validity is non-emptiness of the four required fields and the actress |
| AddVideo.SplitTemplate | pages/AddVideoPage.tsx:68-74 | splitting the document on newlines gives back its seven template lines |
| AddVideo.TitleLineTrimmed | lib/videos.ts:24-26 | the generated `# ` line is already trimmed, takes the title branch and yields the title |
| AddVideo.TrimLabelled | pages/AddVideoPage.tsx:70-74 | trimming a `**Label:** value` line only removes the space left when the value is empty |
| AddVideo.ReadFieldLine | lib/videos.ts:27-39 | a generated field line takes its own branch and yields its value |
| AddVideo.FieldLineValue | lib/videos.ts:28-39 | the value read back from a generated field line is the value written |
| AddVideo.TrimTemplate | lib/videos.ts:20 | trimming the template lines leaves them as written, except the blank second line |
| AddVideo.LinesOfTemplate | lib/videos.ts:20 | the lines the parser visits are the six non-blank template lines |
| AddVideo.ParseParsedLines | lib/videos.ts:23-45 | the parser's loop over the generated lines sets title, slug, URL, thumbnail, duration, tags and description, and no category |
| AddVideo.FinishParsedDraft | lib/videos.ts:47-55 | with the four required fields non-empty, the draft is accepted with today's date |
| AddVideo.ParseTemplate | lib/videos.ts:18-60 | parsing the generated document gives back every field that was written |
| AddVideo.FormFieldsSingleLines | pages/AddVideoPage.tsx:65-74 | the fields of a form of trimmed single-line values go into the template as single trimmed lines |
| AddVideo.MarkdownRoundTrip | pages/AddVideoPage.tsx:65-87 | the document the page uploads parses back, with the actress as category, to exactly the video object the page builds |
| Favorites.ToggledMember | lib/favorites.ts:13-21 | after a toggle the slug is a favourite exactly when it was not before |
| Favorites.ToggleOnlyThat | lib/favorites.ts:17-21 | a toggle leaves every other slug's membership as it was |
| Favorites.ToggleTwice | lib/favorites.ts:13-30 | toggling the same slug twice restores the stored set |
| Favorites.FavoriteStore.constructor | lib/favorites.ts:4-11 | with nothing stored the favourites are the empty set |
| Favorites.FavoriteStore.ToggleFavorite | lib/favorites.ts:13-30 | returns whether the slug was absent; the stored set becomes the toggled set, and `isFavorite` then agrees with the returned value |
| Progress.Lookup | lib/progress.ts:30-33 | an entry is found exactly when the slug is a key, and it is the stored entry |
| Progress.SaveThenGet | lib/progress.ts:12-33 | after a save, `getProgress` returns the entry just saved, with the time of the save |
| Progress.SaveKeepsOthers | lib/progress.ts:20-21 | a save leaves every other slug's entry as it was |
| Progress.ClearThenGet | lib/progress.ts:44-52 | after a clear the slug has no entry, and every other slug keeps its entry |
| Progress.ClearAbsent | lib/progress.ts:44-46 | clearing a slug without an entry changes nothing |
| Progress.ProgressStore.constructor | lib/progress.ts:35-42 | with nothing stored the record is empty |
| Progress.ProgressStore.SaveProgress | lib/progress.ts:12-28 | the stored record gains or replaces the slug's entry, and `getProgress` returns it |
| Progress.ProgressStore.ClearProgress | lib/progress.ts:44-52 | the stored record loses the slug's key, and `getProgress` returns nothing for it |
| Analytics.InitialCountBounds | lib/analytics.ts:14 | every baseline count is at least 100 and at most 4999 per tag plus 1099 |
| Analytics.HashOfBmp | lib/analytics.ts:12 | a character of the Basic Multilingual Plane adds its code to the hash |
| Analytics.InitialCountsKeys | lib/analytics.ts:10-16 | a slug has a baseline count exactly when some catalog video has that slug |
| Analytics.InitialCountsLast | lib/analytics.ts:11-15 | when two videos share a slug, the later one's count is the one kept |
| Analytics.TrackedAddsOne | lib/analytics.ts:26-42 | a view adds exactly one to what `getViews` reports, for a counted slug and for a new one alike |
| Analytics.TrackedKeepsOthers | lib/analytics.ts:26-33 | a view leaves every other slug's key and count as they were |
| Analytics.InitialCountsPositive | lib/analytics.ts:14 | every baseline count is positive |
| Analytics.TrackedPositive | lib/analytics.ts:26-33 | views keep every count positive, so `|| 0` in `getViews` only applies to slugs without a count |
| Analytics.ViewCounter.constructor | lib/analytics.ts:10-19 | the counts start as the baseline counts of the catalog |
| Analytics.ViewCounter.TrackView | lib/analytics.ts:26-33 | the counts become the tracked counts: the slug's count plus one, or 1 when it had none |
| Theme.DefaultDark | lib/theme.ts:6-12 | with nothing or an empty string stored the theme is "dark"; otherwise it is the stored value |
| Theme.ToggleChoice | lib/theme.ts:36-38 | the next theme is "light" exactly when the current one is "dark", and "dark" otherwise, "system" included |
| Theme.ToggleTwice | lib/theme.ts:36-41 | two toggles return to "dark" from "dark" and lead to "light" from any other theme, so "system" is not restored |
| Theme.ApplyLight | lib/theme.ts:27-29 | applying "light" leaves the class list with "light" and without "dark"; other classes are untouched |
| Theme.ApplyDark | lib/theme.ts:30-33 | applying any theme other than "light" and "system" leaves "dark" and not "light"; other classes are untouched |
| Theme.ApplySystem | lib/theme.ts:22-25 | "system" applies "dark" or "light" according to the colour-scheme preference |
| Theme.ThemeState.constructor | lib/theme.ts:6-12 | nothing stored; `getTheme` reads "dark" |
| Theme.ThemeState.ApplyTheme | lib/theme.ts:19-34 | the root's classes become the applied classes for the theme; nothing is stored |
| Theme.ThemeState.SetTheme | lib/theme.ts:14-17 | the theme is stored and applied |
| Theme.ThemeState.ToggleTheme | lib/theme.ts:36-41 | returns the toggle of the current theme, which `getTheme` then reads, and applies it |
| Playlists.FindIndex | lib/playlists.ts:73 | the index of the first playlist with the id, or none exactly when no playlist has it |
| Playlists.IndexOf | lib/playlists.ts:59 | the index of the first occurrence of the slug, or none exactly when it is absent |
| Playlists.RemoveAt | lib/playlists.ts:61 | `splice(i, 1)`: one element fewer; the elements before `i` are kept and those after it move down by one |
| Playlists.AddedKeepsNoDuplicates | lib/playlists.ts:44-46 | adding a video never puts a slug twice into a playlist |
| Playlists.AddedShape | lib/playlists.ts:40-52 | only the first playlist with the id changes, and only by the slug appended at the end, when it was absent |
| Playlists.AddThenRemove | lib/playlists.ts:40-69 | removing a slug just added gives the playlist its old slug list back; no other playlist changes |
| Playlists.FindIndexSameIds | lib/playlists.ts:40-56 | lists with the same ids in the same places find the same index |
| Playlists.IndexOfAppended | lib/playlists.ts:45-59 | a slug appended to a list it was absent from is found at the end |
| Playlists.FirstMatch | lib/playlists.ts:42 | the first playlist carrying the id is the one found |
| Playlists.PlaylistStore.constructor | lib/playlists.ts:13-21 | with nothing stored there are no playlists |
| Playlists.PlaylistStore.Find | lib/playlists.ts:73 | the search loop returns the first index with the id |
| Playlists.PlaylistStore.CreatePlaylist | lib/playlists.ts:23-38 | the new playlist has the given name and description, no videos, and equal creation and update times; it is appended to the list |
| Playlists.PlaylistStore.AddVideoToPlaylist | lib/playlists.ts:40-52 | returns true exactly when the playlist exists and lacks the slug; the list becomes `Added`, and is unchanged when false is returned |
| Playlists.PlaylistStore.RemoveVideoFromPlaylist | lib/playlists.ts:54-69 | returns true exactly when the playlist exists and holds the slug; the list becomes `Removed`, and is unchanged when false is returned |
| Playlists.PlaylistStore.DeletePlaylist | lib/playlists.ts:71-82 | returns true exactly when a playlist has the id; the first one with it is removed |
| Comments.FirstWithId | lib/comments.ts:55-62 | a comment found carries the id; none is found exactly when no comment has it |
| Comments.FindComment | lib/comments.ts:55-62 | a comment found carries the id |
| Comments.FirstWithIdAppend | lib/comments.ts:56-60 | the search of two lists answers from the first when it can |
| Comments.FindCommentIsFirstInPreorder | lib/comments.ts:55-62 | the depth-first search finds the first comment with the id in pre-order: a comment before its replies, replies before later siblings |
| Comments.AddReplyMissing | lib/comments.ts:42-46 | a reply to a parent that is not found is dropped: the thread is unchanged |
| Comments.AddReplyFound | lib/comments.ts:43-45 | a reply to a found parent is appended to that parent's replies |
| Comments.AddReplySize | lib/comments.ts:42-49 | a reply adds exactly its own comments to the thread when the parent is found, and nothing otherwise |
| Comments.PreorderAppend | lib/comments.ts:56-60 | the pre-order of two lists is the two pre-orders concatenated |
| Comments.DefaultName | lib/comments.ts:68-70 | with no name or an empty name stored, comments are signed "Anonymous" |
| Comments.PostToMissingParent | lib/comments.ts:42-46 | a reply whose parent id is not found changes nothing |
| Comments.CommentStore.constructor | lib/comments.ts:15-23 | nothing stored: every video's thread is empty, and the name reads "Anonymous" |
| Comments.CommentStore.SetUsername | lib/comments.ts:64-66 | the name is stored |
| Comments.CommentStore.AddComment | lib/comments.ts:25-53 | the comment has the given id, slug, content and time, the current name, no likes and no replies. The video's thread becomes the posted thread, and every other video's thread is unchanged |
| Recommendations.ParseDuration | lib/recommendations.ts:81-90 | with numbers read as unsigned decimal digits, a duration that is a number is never negative |
| Recommendations.ParseMinutesSeconds | lib/recommendations.ts:82-85 | "MM:SS" with digit fields is 60·MM + SS seconds; an empty field counts 0 |
| Recommendations.ParseHoursMinutesSeconds | lib/recommendations.ts:86-88 | "HH:MM:SS" with digit fields is 3600·HH + 60·MM + SS seconds |
| Recommendations.SplitTwoFields | lib/recommendations.ts:82 | two digit fields joined by `:` split back into those two fields |
| Recommendations.ThreeParts | lib/recommendations.ts:86-88 | a duration of three fields is the hours field times 3600 plus the minutes field times 60 plus the seconds field, NaN when one is NaN |
| Recommendations.SplitThreeFields | lib/recommendations.ts:82 | three digit fields joined by `:` split back into those three fields |
| Recommendations.ParseWithoutColon | lib/recommendations.ts:89 | a duration without a colon counts 0 seconds |
| Recommendations.SharedTagCount | lib/recommendations.ts:31-37 | the number of shared tags is at most the video's tag count, and 0 without a current video |
| Recommendations.NearAverageExact | lib/recommendations.ts:59-68 | the integer comparison used is the source's comparison on the real-valued average: the duration lies strictly within 60 seconds of the mean |
| Recommendations.DefaultAverage | lib/recommendations.ts:59-68 | with nothing watched, a video gets the duration bonus exactly when it lasts strictly between 240 and 360 seconds |
| Recommendations.Fired | lib/recommendations.ts:24-71 | each rule is awarded exactly when its condition holds, the tag rule only for at least one shared tag; at most five rules fire |
| Recommendations.TotalPointsAppend | lib/recommendations.ts:21-71 | the points of two lists of rules add up |
| Recommendations.PointsWhen | lib/recommendations.ts:24-71 | a rule adds its points when its condition holds, and nothing otherwise |
| Recommendations.PointsFormula | lib/recommendations.ts:24-71 | the score is 30 for the same category, plus 10 per shared tag, 20 if similar to a favourite, 15 if unwatched, and 10 for a duration near the average |
| Recommendations.ScoreFormula | lib/recommendations.ts:20-74 | a candidate's score is that sum of the five rules applied to it |
| Recommendations.ScoreBounds | lib/recommendations.ts:20-74 | every score lies between 0 and 75 plus 10 per tag of the video |
| Recommendations.ScoreCandidate | lib/recommendations.ts:20-74 | the method's score and reasons are those of `Scored` |
| Recommendations.Accumulate | lib/recommendations.ts:21-71 | the sequence of `if`s adds up the points and reasons of the fired rules, in rule order |
| Recommendations.Award | lib/recommendations.ts:24-71 | one `if` appends its rule's points and reason when its condition holds |
| Recommendations.Added | lib/recommendations.ts:24-71 | a rule appended adds its points and its reason at the end |
| Recommendations.ScoreAll | lib/recommendations.ts:20-74 | one scored entry per candidate, in order |
| Recommendations.PersonalizedHomeFeed | lib/recommendations.ts:92-95 | the feed is the videos of the recommendations made without a current video, in order |
| Recommendations.ScoreAllMember | lib/recommendations.ts:20-74 | every scored entry is the score of one of the candidates |
| Recommendations.RecommendationsFromCatalog | lib/recommendations.ts:12-79 | the result is a sub-multiset of the scored candidates; each entry is a catalog video with its true score |
| Recommendations.CurrentExcluded | lib/recommendations.ts:19 | the current video is never recommended |
| Recommendations.RecommendationsLength | lib/recommendations.ts:18-76 | at most `limit` entries and at most one per candidate; exactly the smaller of the two when `limit` is not negative |
| Seqs.TakeSortedTop | lib/recommendations.ts:74-75 | the first `n` elements of a sequence in descending key order have keys at least those of every element after them |
| Seqs.SortDescTop | lib/recommendations.ts:74-75 | cutting a descending sort to its first `n` elements keeps the top: every element left out has a key at most that of every element kept |
| Recommendations.RecommendationsSorted | lib/recommendations.ts:74 | scores never increase along the result |
| Recommendations.RecommendationsTop | lib/recommendations.ts:74-75 | the cut at `limit` keeps the best: no scored candidate left out scores higher than a recommendation kept |
| Recommendations.RecommendationsStable | lib/recommendations.ts:75-76 | entries with equal scores keep catalog order (the sort is stable) |
| Recommendations.HomeFeedCoversCatalog | lib/recommendations.ts:92-95 | without a current video every video is a candidate, and the feed has the smaller of `limit` and the catalog size. No entry scores more than 45, since the category and tag rules need a current video |
| HomePage.PrecedesIrreflexive | pages/HomePage.tsx:39 | no category sorts before itself |
| HomePage.PrecedesTotal | pages/HomePage.tsx:39 | of two different category names, one sorts before the other |
| HomePage.PrecedesTransitive | pages/HomePage.tsx:39 | the comparator with "User Uploads" forced last is transitive |
| HomePage.InsertMembers | pages/HomePage.tsx:39 | insertion adds exactly the inserted name |
| HomePage.InsertOrdered | pages/HomePage.tsx:39 | inserting a new name into an ordered list keeps it ordered |
| HomePage.SortByCorrect | pages/HomePage.tsx:39 | sorting distinct names gives an ordered permutation of them |
| HomePage.OrderedDistinct | pages/HomePage.tsx:39 | an ordered list has no repeated name |
| HomePage.CategoryNamesOf | pages/HomePage.tsx:38-39 | the keys of the grouping are distinct and are exactly the categories of the catalog's videos |
| HomePage.SortWithLast | pages/HomePage.tsx:39 | the sorted names are the same distinct names, in ascending order apart from the forced-last one, which never precedes another |
| HomePage.CategoriesOrder | pages/HomePage.tsx:38-39 | the category list holds each category of the catalog once, ascending, with "User Uploads" after every other category |
| HomePage.RecentVideosCorrect | pages/HomePage.tsx:41-45 | at most five videos (fewer only when the catalog is smaller), newest first, all taken from the catalog, and no video left out was uploaded later than one kept |
| HomePage.UniqueCorrect | pages/HomePage.tsx:48-51 | the set of tags holds each tag entry once |
| HomePage.TagEntriesMember | pages/HomePage.tsx:49-51 | a tag is among the entries exactly when some video carries it |
| HomePage.AllTagsCorrect | pages/HomePage.tsx:47-53 | the tag list has no duplicates, is strictly ascending, and holds exactly the tags some video carries |
| HomePage.ListAllTags | pages/HomePage.tsx:47-53 | the nested `forEach` loops compute `AllTags` |
| HomePage.FilteredVideosCorrect | pages/HomePage.tsx:63-80 | a video is shown exactly when it is in the catalog, carries the selected tag (if any) and matches the lower-cased, trimmed query (if not blank); the result keeps catalog order |
| HomePage.UnfilteredShowsAll | pages/HomePage.tsx:70-79 | with no tag and a blank query every video is shown, in order |
| HomePage.HeadingPrecedence | pages/HomePage.tsx:82-90 | a query decides the heading before a tag; "All Videos" appears exactly when neither is set |
| HomePage.AdAfterRule | pages/HomePage.tsx:101 | an ad follows index `i` exactly when `i ≥ 3` and `(i − 3) mod 8 = 0` |
| HomePage.AdCountClosed | pages/HomePage.tsx:98-104 | `n` videos get no ad when `n ≤ 3`, and otherwise `⌊(n − 4)/8⌋ + 1` ads |
| HomePage.ItemsSnoc | pages/HomePage.tsx:98-104 | one more video adds its card, then its ad when its index calls for one |
| HomePage.ItemsCount | pages/HomePage.tsx:98-104 | the items are the videos plus `AdCount` ads, and exactly that many items are ads |
| HomePage.ItemsAds | pages/HomePage.tsx:98-104 | there is an ad for index `i` exactly when `i` is a video index that calls for one |
| HomePage.ItemsAdFollowsCard | pages/HomePage.tsx:98-104 | every ad comes right after the card of the video it is numbered by |
| HomePage.RenderFilteredItems | pages/HomePage.tsx:94-106 | nothing is rendered unless filtered; otherwise the loop renders `Items` |
| WatchPage.SplitCount | pages/WatchPage.tsx:81-82 | the same-category and other-category lists together hold exactly the videos whose slug is not the current one |
| WatchPage.RelatedLength | pages/WatchPage.tsx:81-84 | "Up Next" has five videos, or all other videos when there are fewer |
| WatchPage.RelatedMembers | pages/WatchPage.tsx:81-84 | every related video is a catalog video other than the current slug |
| WatchPage.RelatedSameCategoryFirst | pages/WatchPage.tsx:81-84 | the related list starts with the same-category videos and continues with videos of other categories only |
| WatchPage.RelatedKeepsOrder | pages/WatchPage.tsx:81-84 | each of the two parts keeps catalog order |
| WatchPage.WatchState.constructor | pages/WatchPage.tsx:59-61 | no video, no related videos and no count yet |
| WatchPage.WatchState.Load | pages/WatchPage.tsx:70-84 | for a non-empty slug the video is the first catalog match. When one is found, its view is tracked, the shown count is the count before plus one, and "Up Next" is `Related`. Otherwise neither the counts nor the page state change |
| ManageVideosPage.TagFilteredCorrect | pages/ManageVideosPage.tsx:20-22 | "all" keeps every video; any other tag keeps exactly the videos carrying it, in order |
| ManageVideosPage.IncludesEmpty | pages/ManageVideosPage.tsx:24-27 | every string includes the empty string |
| ManageVideosPage.SearchedCorrect | pages/ManageVideosPage.tsx:24-27 | a video is kept exactly when its lower-cased title or one of its lower-cased tags contains the lower-cased term; the term is not trimmed and the description is not searched; an empty term keeps every video |
| ManageVideosPage.SearchedWithinFiltered | pages/ManageVideosPage.tsx:20-27 | the searched videos are a subsequence of the filtered ones, which are a subsequence of all videos |
| ManageVideosPage.MinutesSeconds | pages/ManageVideosPage.tsx:83-84 | "MM:SS" with digit fields counts 60·MM + SS, as `parseDuration` does |
| ManageVideosPage.ThirdPartIgnored | pages/ManageVideosPage.tsx:83-84 | for "HH:MM:SS" the page counts 60·HH + MM and ignores the seconds, where `parseDuration` counts 3600·HH + 60·MM + SS |
| ManageVideosPage.MinutesOnly | pages/ManageVideosPage.tsx:83-84 | a duration without a colon counts as whole minutes, the missing seconds as 0 |
| ManageVideosPage.TotalSecondsNaN | pages/ManageVideosPage.tsx:82-85 | the total is not a number exactly when some video's minutes part is not a number; otherwise it is never negative |
| ManageVideosPage.TotalMinutesRounds | pages/ManageVideosPage.tsx:82-85 | the minutes shown are the total seconds divided by 60 and rounded half up |
| AnalyticsPage.WatchMinutesRounds | pages/AnalyticsPage.tsx:26-50 | the watch time shown is the summed `currentTime` in seconds, divided by 60 and rounded half up |
| AnalyticsPage.CategoryStatsKeys | pages/AnalyticsPage.tsx:29-32 | a category has a count exactly when it has a group |
| AnalyticsPage.CategoryStatsValues | pages/AnalyticsPage.tsx:29-32 | each category's count is the size of its group |
| AnalyticsPage.StatSumOfSizes | pages/AnalyticsPage.tsx:29-32 | counts equal to the group sizes add up to the number of grouped videos |
| AnalyticsPage.CategoryStatsCorrect | pages/AnalyticsPage.tsx:20-32 | the counted categories are exactly the catalog's categories; each count is the number of videos in that category; the counts add up to the catalog size |
| AnalyticsPage.CountCategories | pages/AnalyticsPage.tsx:29-32 | the `forEach` loop builds `CategoryStats` |
| AnalyticsPage.CountMapCorrect | pages/AnalyticsPage.tsx:35-40 | a tag is counted exactly when it occurs, and its count is its number of occurrences |
| AnalyticsPage.OccurrencesAbsent | pages/AnalyticsPage.tsx:38 | a tag that does not occur has no occurrences |
| AnalyticsPage.TagCountsCorrect | pages/AnalyticsPage.tsx:35-40 | a tag has a count exactly when some video carries it, and the count is the number of its entries across all videos |
| AnalyticsPage.SumOccurrencesSnoc | pages/AnalyticsPage.tsx:38 | one more entry raises the total count of the distinct tags by one when it is one of them |
| AnalyticsPage.SumOccurrencesAppend | pages/AnalyticsPage.tsx:35-40 | summing counts over two key lists adds up |
| AnalyticsPage.SumOverUnique | pages/AnalyticsPage.tsx:35-40 | the counts of the distinct entries add up to the number of entries |
| AnalyticsPage.TagCountsSum | pages/AnalyticsPage.tsx:35-40 | the tag counts add up to the total number of tag entries |
| AnalyticsPage.TagRows | pages/AnalyticsPage.tsx:42-43 | one `{tag, count}` row per key, in key order, carrying that key's count |
| AnalyticsPage.PopularTagsCorrect | pages/AnalyticsPage.tsx:42-45 | the ten most frequent tags, or all of them when fewer, in descending count order, each with its true count, no row repeated or invented; every tag left out occurs at most as often as every tag kept |
| AnalyticsPage.PopularTagsTop | pages/AnalyticsPage.tsx:42-45 | a tag that is not among the rows occurs at most as often as each tag that is |
| AnalyticsPage.CountTags | pages/AnalyticsPage.tsx:35-40 | the nested `forEach` loops build the tag counts, and the keys in first-insertion order |
| AnalyticsPage.CountVideoTags | pages/AnalyticsPage.tsx:37-39 | the inner loop counts one video's tags |
| AnalyticsPage.CountTag | pages/AnalyticsPage.tsx:38 | one tag entry adds one to its count, or starts it at 1 |
| AnalyticsPage.RecentActivityCorrect | pages/AnalyticsPage.tsx:54-56 | the ten latest progress entries, or all when fewer, newest first, taken from the stored entries; no entry left out is newer than an entry kept |
| AnalyticsPage.ComputeStats | pages/AnalyticsPage.tsx:18-57 | total videos is the catalog size and total views the number of progress entries; every other statistic is its specification function; the favourite count is undefined |
| SearchFilters.ToggleAbsent | components/SearchFilters.tsx:37-39 | toggling an unselected tag appends it at the end |
| SearchFilters.TogglePresent | components/SearchFilters.tsx:37-38 | toggling a selected tag removes every occurrence of it, keeps every other tag and their order, and shortens the list |
| SearchFilters.FilterShorter | components/SearchFilters.tsx:38 | filtering out an element that is present shortens the list |
| SearchFilters.ToggleTwice | components/SearchFilters.tsx:36-41 | toggling an unselected tag twice restores the selection |
| SearchFilters.FiltersOmitEmpty | components/SearchFilters.tsx:28-34 | the reported filter has a category exactly when one is selected, tags exactly when at least one is selected, a duration exactly when one is chosen, each with the selected value |
| SearchFilters.FilterPanel.constructor | components/SearchFilters.tsx:17-20 | every selection starts empty |
| SearchFilters.FilterPanel.HandleSearch | components/SearchFilters.tsx:23-26 | the term is stored and reported as typed |
| SearchFilters.FilterPanel.HandleFilterChange | components/SearchFilters.tsx:28-34 | the filter reported is the one built from the current selections |
| SearchFilters.FilterPanel.ToggleTag | components/SearchFilters.tsx:36-41 | the selected tags become the toggled list |
| SearchFilters.FilterPanel.ClearFilters | components/SearchFilters.tsx:43-48 | category, tags and duration are emptied, and the empty filter is reported, which is the filter the cleared selections build |

## Left out

- Browser storage: `localStorage` reads and writes, `JSON.parse` and `JSON.stringify`, and the caught storage errors. Each store's stored value is a class field, and "nothing stored" or "unparsable" is the empty value.
- `loadVideosFromFiles` (lib/videos.ts:154-232) reads files through `import.meta.glob`, and the page uploads through `@replit/object-storage` (pages/AddVideoPage.tsx:93-112). Both are I/O. The file-loaded videos are a parameter of `Videos.MergeWithStatic` and `Videos.VideosByCategoryWithDynamic`, and the upload is the `Upload` value that `AddVideo.Submit` returns.
- The clock: `Date.now()`, `new Date().toISOString()` and the ids made from them are parameters (`now`, `today`, `id`).
- Floating point. Durations, watch times and timestamps are integers. `Math.round(x / 60)` is `(x + 30) / 60`, which is exact on integers. The duration-bonus average is compared exactly, without division (`Recommendations.NearAverageExact`).
- Text.ToNumber: `Number(...)` is modelled on decimal digit strings, after `trim`, with "" giving 0; every other string gives NaN. JavaScript also accepts signs, decimals, exponents, hexadecimal and "Infinity", and those are not modelled.
- Text.ToLower: `toLowerCase` is modelled on ASCII letters only.
- `localeCompare` and the default `sort()` order compare strings by Unicode scalar value (`Text.Less`); JavaScript compares UTF-16 code units, and the two orders differ for characters beyond U+FFFF against those in U+E000–U+FFFF. Locale collation is not modelled.
- Videos.DateKey: it reads only the `yyyy-mm-dd` shape. Any other string gets key 0. In JavaScript such strings go to implementation-specific date parsing, which accepts forms like "2024/05/30". DateKey does not validate field ranges either, so "2024-13-45" gets a key where JavaScript gives NaN. The app itself only writes dates made by `toISOString().split('T')[0]` (lib/videos.ts:48, pages/AddVideoPage.tsx:85) or well-formed fixture dates, so it cannot reach either difference.
- `Object.keys` and `Object.entries` list integer-like keys (such as "2024") first in numeric order. The model keeps insertion order for every key. Keys that collide with `Object.prototype` members (such as "constructor") are not modelled either: tag names in the tag counts, category names in the category groupings (lib/videos.ts:271-274), slugs in the view counts and the progress record (lib/analytics.ts:41, lib/progress.ts:32), and slugs in the comment threads (lib/comments.ts:18, 38 and 48). For example, `createSlug("Constructor")` is "constructor". For that slug, `getComments` returns the inherited `Object` function, and `addComment` calls `.push` on it and throws. `Comments.CommentStore.GetComments` returns `[]` for that slug, and `Comments.CommentStore.AddComment` appends.
- React state sequencing. In components/SearchFilters.tsx:79-81, 97-99 and 118-120, `handleFilterChange` runs right after a `setState` and reports the selections from before it. `SearchFilters.FilterPanel.HandleFilterChange` reports the current fields.
- Timers, loading flags, scrolling, the `useSearchParams` tag selection (`handleTagClick`) and all rendering apart from the ad slots are not modelled. The effect in pages/WatchPage.tsx:64-94 first resets `video` to null. `WatchPage.WatchState.Load` makes that reset and then runs the timer callback in one step.
- `handleDeleteVideo` (pages/ManageVideosPage.tsx:29-34) only logs. `availableTags` (pages/ManageVideosPage.tsx:15) comes from `getAllTags`, which lib/videos.ts does not export.
- Recommendations.IsSimilarToFavorites: lib/recommendations.ts:40 calls `.some` on the `Set` that `getFavorites` returns. `Set` has no `.some`, so the function throws as soon as there is a candidate. The model treats favourites as a set of slugs and asks whether some favourite qualifies.
- AnalyticsPage.ComputeStats: pages/AnalyticsPage.tsx:51 reads `.length` of a `Set`, which is `undefined`. The model records the favourite count as `None`. Line 92 calls `Object.entries` on a `tagStats` field that neither the initial state nor the effect sets, so the page throws on its first render and the statistics `ComputeStats` describes are never shown; that rendering is not modelled.
- The effect in pages/AnalyticsPage.tsx:25-26 and 54 reads the stored progress record. The model takes its values as a list, `entries`.
- The data fixtures under lib/data and the markdown literals of lib/videos.ts:63-146 are not modelled. The catalog functions take the list of static entries as a parameter.
- The comment at lib/videos.ts:247 says file videos override static ones. The code keeps the static video, and so does the model (`Videos.StaticVideosWin`).
- Videos.Finish: a document with no `**Tags:**` line gets `tags == []`, and one with no description gets `description == ""`. In lib/videos.ts:47-55 both fields stay `undefined`, and the code that reads them then throws: the tags at lib/analytics.ts:14, lib/recommendations.ts:32, pages/HomePage.tsx:50 and pages/AnalyticsPage.tsx:37, the description at pages/HomePage.tsx:74. The model does not capture those failures.
- Recommendations.ParseDuration: `Number` also reads a sign, so in the source `"-1:30"` gives -30 seconds. The model reads only unsigned digits, so a negative duration is NaN, and its non-negative result holds only for unsigned input.
- Default arguments are explicit parameters: `limit = 10` of `getRecommendations` (lib/recommendations.ts:12), `limit = 20` of `getPersonalizedHomeFeed` (lib/recommendations.ts:92) and `description = ''` of `createPlaylist` (lib/playlists.ts:23).
