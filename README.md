# Subtitle workflow bot, modelled in Dafny

The Insoumis subtitle bot keeps a board of tracker issues in step with the
videos of a channel and with the captions volunteers write for them. Each
(video, language) pair has an issue titled `[subtitles] [<lang>] <title>`
and a card on a project board. The card moves through five workflow stages,
from "Awaiting subtitles" to "Approved". Five programs take part:

- `web/bot.py`: a webhook. When a card is moved, it relabels the card's
  issue so that its stage label matches the destination column.
- `bin/create-issues.py`: opens the missing issues, each with a card in its
  language's first column.
- `bin/suffix-commit.py`: prints the ` Closes #N.` suffix of the commit
  message for newly downloaded captions.
- `bin/update-issues.py`: moves the cards of those captions' issues to the
  "Approved" column.
- `bin/youtube.py`: downloads the caption tracks, with a metadata header
  spliced into VTT files, under `<dir>/<year>/<day>.<slug>.<lang>.<id>.<ext>`.

Two library files support them:

- `lib/youtube.py`: parses the platform's JSON items and the caption header.
- `lib/common.py`: finds the staged captions in `git add -n` output.

One Dafny module per source file (`webhook.dfy`, `create_issues.dfy`,
`suffix_commit.dfy`, `update_issues.dfy`, `youtube_script.dfy`,
`youtube_lib.dfy`, `common.dfy`, `github_config.dfy`), plus two helpers:

- `text.dfy`: the Python string operations the scripts use.
- `wrappers.dfy`: `Option` and `Result`. A `Failure` names the exception or
  `exit` call that ends a script.

How the source's state and loops are modelled:

- Code that changes state is modelled imperatively:
  - the webhook's issue is a class whose `labels` set the label requests
    update;
  - the tracker of `create-issues.py` is a class `Repository`, whose methods
    append issues and card requests;
  - each loop of the scripts is a `method` with its invariants, proved equal
    to a specification function.
- The properties are proved as lemmas about those functions.
- Network answers, file contents and directory walks are inputs:
  - the issue list, which `repo.get_issues()` gives with its default filter:
    open issues only;
  - the column listings;
  - `read(path)`;
  - `fetch(ids)`;
  - the `os.walk` entries.

Behaviour of the code worth noting:

- `create-issues.py` does not skip videos without a duration; every listed
  video is reconciled.
- A failed card request in `create-issues.py` ends the script
  (`requestJsonAndCheck` raises), so card placement is not best effort.
- `create-issues.py` uses its own language table: only fr and en, and the
  French card column is 398411, not the 910796 of `lib/github.py`.
- The webhook also has its own stage table, whose French stage 0 is 398411.
- `suffix-commit.py` does not deduplicate issue numbers across pairs.
- `create-issues.py` sees open issues only. Once a ` Closes #N.` commit has
  closed an issue, a later run over a video that is still listed opens a
  new issue for the same pair.
- The video lookup by ids has no 50-id guard. Only the channel searches
  assert `cap < 51`.

## Model

| member | source | states |
|---|---|---|
| Text.TrailingNumber | web/bot.py:110-116 | `([0-9]+)$` finds no number exactly when the text, less one final newline, does not end in a digit |
| Text.TrailingNumberOfDecimal | bin/update-issues.py:147-152 | a URL ending in `"%d" % n` after a non-digit reads back as `n` |
| Text.DecimalRoundTrip | bin/suffix-commit.py:122 | `int("%d" % n) == n` for every non-negative `n` |
| Text.PathJoin | bin/youtube.py:317-319 | `os.path.join` ends with its last component and keeps a relative join under the directory |
| GithubConfig.LabelsColumnsShape | lib/github.py:41-47 | five stages, labelled `⚙ [0]` to `⚙ [4]` in order, each with one column per language fr, en, de, pt, zh |
| GithubConfig.LabelsColumnsDistinct | lib/github.py:42-46 | all 25 column ids are pairwise distinct within and across stages, so the table is well formed |
| GithubConfig.LanguagesShape | lib/github.py:49-121 | `LANGUAGES` lists fr, en, de, pt, zh in column order; short codes and labels are pairwise distinct |
| GithubConfig.LanguageColumnsAreStageZero | lib/github.py:42-121 | each language's `column` string is the decimal form of its stage-0 column id |
| Webhook.TrackedIssue.constructor | web/bot.py:127-129 | the fetched issue with its number and current label names, no request sent yet |
| Webhook.TrackedIssue.RemoveFromLabels | web/bot.py:141 | the label leaves the issue and one removal request is recorded |
| Webhook.TrackedIssue.AddToLabels | web/bot.py:144 | the label joins the issue and one addition request is recorded |
| Webhook.LabelsToAddMembers | web/bot.py:133-135 | a label is to be added iff its stage lists the column and the issue lacks it |
| Webhook.LabelsToRemoveMembers | web/bot.py:133-137 | a label is to be removed iff its stage does not list the column and the issue has it |
| Webhook.ComputeDelta | web/bot.py:131-137 | the loop over the stage table yields exactly the labels to add and to remove, both directions of each iff |
| Webhook.ApplyDelta | web/bot.py:139-144 | all removals are sent before any addition, and the labels end as old minus removed plus added |
| Webhook.StageLabelsAfterMove | web/bot.py:133-144 | after a move the issue has a stage label iff that stage lists the destination column; labels outside the table are untouched |
| Webhook.AtMostOneStageLabel | web/bot.py:133-144 | with no column shared between stages, a moved issue carries at most one stage label |
| Webhook.BotLabelsColumnsWellFormed | web/bot.py:23-29 | the handler's stage table has distinct labels and no column id in two stages |
| Webhook.Decide | web/bot.py:88-120 | 400 iff there is no payload; 403 iff there is one and the signature differs from `sha1=<digest>`; 500 (a KeyError) iff it is signed and has no `action`, or a `moved` action whose `project_card` lacks `id`, `column_id` or `content_url`; a relabel iff the action is `moved`, the card's keys are present, the content URL ends in a number and that number is not 1 |
| Webhook.Labellize | web/bot.py:80-146 | the status follows the gates, including 500 for a missing payload key or an issue the tracker does not have; only the issue named by the card is changed; its labels become the post-move labels via removals then additions |
| YoutubeLib.VideoOf | lib/youtube.py:255-267 | the id is `id.videoId` for an object id and `id` otherwise; the duration is absent iff the item has no `contentDetails` |
| YoutubeLib.VideosOf | lib/youtube.py:253-268 | one video per item, in item order |
| YoutubeLib.ParseVideos | lib/youtube.py:253-268 | the append loop yields exactly the videos of the items |
| YoutubeLib.SearchMaxResults | lib/youtube.py:148-160 | a channel search proceeds iff `cap < 51`, with `maxResults` the decimal form of the cap |
| YoutubeLib.HeaderEntry | lib/youtube.py:339-346 | a matching line gives a non-empty `\w` key it starts with, followed by `": "`, and a stripped value |
| YoutubeLib.HeaderEntryRoundTrip | lib/youtube.py:339-346 | the line `key + ": " + value` reads back as `(key, value)` |
| YoutubeLib.HeaderEnd | lib/youtube.py:341-343 | reading stops at the first blank line or at end of file, after only non-blank lines |
| YoutubeLib.MetasKeys | lib/youtube.py:344-346 | every key of the header dict comes from a matching header line |
| YoutubeLib.MetasLastWins | lib/youtube.py:344-346 | a key keeps the value of its last matching line |
| YoutubeLib.CaptionFromText | lib/youtube.py:348-354 | a caption is built iff `Caption`, `Video`, `Language` and `LastUpdated` are all in the header, from their values |
| YoutubeLib.ReadCaption | lib/youtube.py:337-354 | the `readline` loop builds the caption the header defines, or the KeyError of the first missing key |
| YoutubeLib.SearchPaths | lib/youtube.py:271-279 | a found caption has the id and comes from a candidate; "no caption" iff every candidate parses to another id |
| YoutubeLib.SearchPathsFirst | lib/youtube.py:271-279 | otherwise the result is what the first candidate not skipped parses to: its caption with the id, or its escaping KeyError, and every earlier candidate parsed to a caption with another id |
| YoutubeLib.SearchDirectory | lib/youtube.py:273-278 | the loop over one directory stops where the search over its files stops, or hands on to the later files |
| YoutubeLib.FindCaptionFile | lib/youtube.py:271-279 | the walk returns the first caption file with the extension and the id, in walk order |
| YoutubeScript.Plural | bin/youtube.py:68-71 | `_s` gives `''` iff the count is 1 and `'s'` otherwise |
| YoutubeScript.PluralOf | bin/youtube.py:68-71 | `_s` of a list gives `''` iff the list has one element |
| YoutubeScript.CaptionsDirectory | bin/youtube.py:171-176 | a `--directory` starting with `/` is used as given, another is joined to the script directory |
| YoutubeScript.AbsoluteDirectoryIsJoin | bin/youtube.py:171-176 | the absolute branch agrees with `os.path.join` |
| YoutubeScript.HeadLines | bin/youtube.py:300-301 | the first three lines, or all of them when there are fewer |
| YoutubeScript.TailLines | bin/youtube.py:302 | the head and the tail make up the lines again |
| YoutubeScript.SpliceLines | bin/youtube.py:299-309 | the spliced text is the first three lines, then `LastUpdated`, `Caption`, `Video`, then the remaining lines unchanged |
| YoutubeScript.SpliceKeepsOriginal | bin/youtube.py:299-309 | dropping the three metadata lines gives back the downloaded text |
| YoutubeScript.SplicedHeaderMetas | bin/youtube.py:299-309 | the header dict of a spliced file maps the four keys to the language, update time, caption id and video id |
| YoutubeScript.SpliceReadsBack | bin/youtube.py:293-309 | round trip: parsing a spliced VTT whose third line is `Language: L` yields that caption id, video id, `L` and update time |
| YoutubeScript.CaptionFilename | bin/youtube.py:311-314 | the name starts with the day and a dot, ends with a dot and the extension, and holds no slash when its parts hold none |
| YoutubeScript.CaptionPath | bin/youtube.py:316-319 | the path ends with the file name |
| YoutubeScript.TrackFile | bin/youtube.py:286-319 | a non-VTT file is written as downloaded; every file's path ends with its caption file name |
| YoutubeScript.WritesCount | bin/youtube.py:277-326 | one file is written per standard, non-draft track and no other |
| YoutubeScript.DownloadTracks | bin/youtube.py:277-327 | the track loop writes the kept tracks' files and counts exactly those files |
| YoutubeScript.DownloadCaptions | bin/youtube.py:271-331 | the download loop writes those files in video then track order, and `captions_count` equals the kept tracks |
| YoutubeScript.SelectVideos | bin/youtube.py:228-249 | exit 1 iff `totalResults` differs from the number of ids; otherwise one video per item |
| YoutubeScript.ChannelVideos | bin/youtube.py:257-263 | the page loop yields every item of every page, in order |
| YoutubeScript.UploadTarget | bin/youtube.py:195-203 | exit 1 without `--captions`; otherwise the file found for the first caption id, which carries that id |
| Common.AddedPath | lib/common.py:22 | a line yields a path iff it is `add '<p>'` with `p` non-empty, and then it is that `p` |
| Common.AddedPathOfLine | lib/common.py:22 | every `add '<p>'` line yields `p` |
| Common.AddedPathsAppend | lib/common.py:22 | the paths of two runs of lines are those of the first run, then those of the second |
| Common.GitOutputRoundTrip | lib/common.py:19-22 | output listing newline-free paths one per line gives back those paths, in order |
| Common.OtherLinesIgnored | lib/common.py:22 | lines that are not `add '…'` lines add no path |
| Common.NoneAdded | lib/common.py:22-25 | output with no `add '…'` line yields no path |
| Common.CaptionLocation | lib/common.py:31-35 | a match gives a non-empty digit year and a slash-free file name that end the path as `year/filename` |
| Common.CaptionLocationRejects | lib/common.py:31-34 | a path is rejected iff it has no slash, ends in a slash, or has no digit just before its last slash |
| Common.CaptionLocationOfPath | lib/common.py:31-38 | the path `dir/year/filename` written for a caption reads back as that year and file name |
| Common.LoadCaption | lib/common.py:29-39 | a rejected path exits with "Bad path"; a loaded caption's file is `directory/year/filename` |
| Common.LoadCaptionsOutcome | lib/common.py:27-39 | loading fails iff some staged path fails, with the first failure; otherwise caption `i` is the one behind path `i` |
| Common.VideoIds | lib/common.py:41 | the video lookup receives the captions' video ids, in caption order |
| Common.LoadOne | lib/common.py:31-39 | one pass of the loop: the path regex, then the caption file parsed |
| Common.DownloadedCaptionsAndVideos | lib/common.py:17-44 | no staged path gives `([], [])`; otherwise the staged captions in order and the videos of their ids, or the first failure |
| CreateIssues.ScriptColumnsAreBotStageZero | bin/create-issues.py:104-125 | the script's card columns are the webhook's stage-0 columns; its French column differs from that of `lib/github.py` |
| CreateIssues.IssueTitle | bin/create-issues.py:226-227 | the title starts with the language prefix `[subtitles] [<lang>]` |
| CreateIssues.IssueTitleParts | bin/create-issues.py:226-227 | the language code and the video title can be read back from a title |
| CreateIssues.IssueTitleInjective | bin/create-issues.py:226-227 | equal titles mean equal language codes and equal video titles |
| CreateIssues.LabelMap | bin/create-issues.py:200-204 | the dict's keys are exactly the languages' short codes |
| CreateIssues.LabelMapLookup | bin/create-issues.py:200-204 | with distinct codes, each code maps to its language's label |
| CreateIssues.LanguageLabels | bin/create-issues.py:200-204 | the loop filling `labels` builds that dict |
| CreateIssues.VideoPairsMembers | bin/create-issues.py:225-246 | for one video, a pair is created iff its language is listed and no prefetched issue has its title |
| CreateIssues.PairsToCreateMembers | bin/create-issues.py:198-246 | a pair is created iff its video and language are listed and no issue fetched at the start has its exact title |
| CreateIssues.PairsToCreateAllMissing | bin/create-issues.py:198-246 | creations never suppress later ones: with no title present, every pair is created, videos outer, languages inner |
| CreateIssues.PairsToCreateNoneMissing | bin/create-issues.py:232-238 | idempotence: with every title present, nothing is created |
| CreateIssues.NewIssue | bin/create-issues.py:241-246 | a new issue has the pair's exact title and exactly two labels, the language label then `Process: [0] Awaiting subtitles` |
| CreateIssues.AfterAppend | bin/create-issues.py:224-258 | creating two runs of pairs in turn is creating them all |
| CreateIssues.AfterShape | bin/create-issues.py:242-258 | one issue and one card request are appended per created pair, and nothing earlier changes |
| CreateIssues.AfterIndex | bin/create-issues.py:241-258 | the k-th creation is the k-th pair's issue, then a card in its language's column whose content is that issue |
| CreateIssues.SecondRunCreatesNothing | bin/create-issues.py:198-246 | a second run over the same videos creates nothing, when its issue list still holds the first run's issues (they are all still open) |
| CreateIssues.Repository.constructor | bin/create-issues.py:156-157 | the repository with its issues and no card request |
| CreateIssues.Repository.CreateIssue | bin/create-issues.py:242-246 | the issue is appended with the next id and number; nothing else changes |
| CreateIssues.Repository.PostCard | bin/create-issues.py:250-258 | one card request is recorded, with content type `Issue`; nothing else changes |
| CreateIssues.TitleExists | bin/create-issues.py:232-236 | the `found` loop is true iff some prefetched issue has exactly the title |
| CreateIssues.OpenIssue | bin/create-issues.py:240-258 | the `else` branch creates the pair's issue, then the card pointing at it |
| CreateIssues.ReconcileVideo | bin/create-issues.py:225-258 | the language loop creates exactly one video's missing pairs, in language order |
| CreateIssues.ReconcileVideos | bin/create-issues.py:224-258 | the video loop creates exactly the missing pairs, in loop order |
| CreateIssues.CreateIssues | bin/create-issues.py:198-258 | the run creates the missing pairs of the script's languages, judged against the issue list fetched once |
| SuffixCommit.IdRun | bin/suffix-commit.py:115 | the captured id is the longest run of `[a-zA-Z0-9._-]` |
| SuffixCommit.WatchIdAt | bin/suffix-commit.py:115 | a match at a position is the URL followed by a non-empty id |
| SuffixCommit.WatchIdFromLeftmost | bin/suffix-commit.py:115-118 | `search` returns the match at the leftmost position where one starts, and none when none does |
| SuffixCommit.FirstWatchIdOf | bin/suffix-commit.py:115-120 | a body holding the video URL after text with no `h` gives the id written after the URL |
| SuffixCommit.ClosingNumberFirst | bin/suffix-commit.py:117-123 | a number is found iff some issue has the id in its first URL and the title prefix, and it is the first such issue's |
| SuffixCommit.SearchIssuesSpec | bin/suffix-commit.py:117-123 | the search raises a TypeError iff an issue with a null body comes before every issue that passes the test, naming that issue; otherwise it finds the number of `ClosingNumber` |
| SuffixCommit.FindClosing | bin/suffix-commit.py:117-123 | the issue loop returns the result of that search |
| SuffixCommit.Fragment | bin/suffix-commit.py:122 | a fragment starts with ` Closes #` and ends with `.` |
| SuffixCommit.ZipNumbers | bin/suffix-commit.py:109 | no more numbers than either list has elements |
| SuffixCommit.ZipIgnoresSurplus | bin/suffix-commit.py:109 | surplus elements of the longer list play no part |
| SuffixCommit.ClosedNumbersEmpty | bin/suffix-commit.py:109-126 | no number is closed iff no pair finds an issue |
| SuffixCommit.Fragments | bin/suffix-commit.py:122 | one fragment per closed number, in order |
| SuffixCommit.ReadClosesOfFragments | bin/suffix-commit.py:122-126 | round trip: the printed suffix reads back as the closed issue numbers, in pair order |
| SuffixCommit.SearchedNumbersSpec | bin/suffix-commit.py:109-123 | the pair loop raises iff some pair's search raises, with the error of the first such pair; otherwise it finds the numbers of `ClosedNumbers` |
| SuffixCommit.SearchCrashSticks | bin/suffix-commit.py:109-123 | once a pair's search has raised, later pairs change nothing |
| SuffixCommit.BodiesNeverRaise | bin/suffix-commit.py:117-123 | when every issue has a body, the pair loop never raises and finds the numbers of `ZipNumbers` |
| SuffixCommit.ClosingFragments | bin/suffix-commit.py:108-123 | the pair loop appends one fragment per pair that finds its issue, in pair order, or ends with the TypeError of the first search that raises |
| SuffixCommit.Printed | bin/suffix-commit.py:125-126 | nothing is printed iff no number was closed |
| SuffixCommit.CommitSuffix | bin/suffix-commit.py:91-126 | exit 1 without a directory; otherwise the result is `SuffixRun`: the staged captions' failure, exit 0 with no tracker access when nothing is staged, the TypeError of an issue with a null body, else the fragments printed |
| UpdateIssues.ColumnsAgreeWithBoard | bin/update-issues.py:134-138 | the 12 scanned columns are stages 0 to 3 for fr, en, de; the approval columns are stage 4 and are never scanned |
| UpdateIssues.ParsedMembers | bin/update-issues.py:146-156 | a card is gathered iff some listed card's content URL ends in its number |
| UpdateIssues.ParsedOfIssueUrl | bin/update-issues.py:147-152 | a card whose URL is an issue URL is gathered with that issue's number |
| UpdateIssues.GatherOne | bin/update-issues.py:146-156 | one listed card with a content URL is parsed and appended, or skipped, and `issue_number` follows the last card gathered |
| UpdateIssues.GatherColumn | bin/update-issues.py:146-156 | the inner loop completes iff every card of the column has a content URL, and then has appended the column's parsed cards |
| UpdateIssues.GatherCards | bin/update-issues.py:133-156 | `Gathered` of the listing: a `MissingKey("content_url")` failure iff some listed card (a note card) has no content URL; otherwise the parsed cards of the columns in order, with `issue_number` ending as the last one's number |
| UpdateIssues.FirstCardSpec | bin/update-issues.py:169-173 | no card is found iff none carries the number; otherwise it is the first that does |
| UpdateIssues.FindCard | bin/update-issues.py:169-173 | the `card_id` loop returns that card |
| UpdateIssues.LastParsedOutcome | bin/update-issues.py:164-195 | as written, the moved card is the first one carrying the last gathered card's number, and it goes to the approval column of the pair's language |
| UpdateIssues.LastParsedMoves | bin/update-issues.py:164-195 | as written, the converse: with an issue carrying the title and the last gathered number's card found (id not 0), that card goes to `APPROVAL_COLUMNS[language]` for a handled language and nothing moves for another; with that card not found, nothing moves |
| UpdateIssues.NoTitleNoMove | bin/update-issues.py:164-166 | with no issue carrying the pair's title, the pair moves nothing, whatever the comparison |
| UpdateIssues.NoCardsCrash | bin/update-issues.py:174-176 | as written, a matching title with no card gathered ends in a `NameError` |
| UpdateIssues.StaleNumberMovesOtherCard | bin/update-issues.py:171 | as written, another issue's card is moved on a concrete board |
| UpdateIssues.OwnNumberOutcome | bin/update-issues.py:164-195 | comparing with the issue's own number never fails; a moved card carries the number of an issue with the pair's title and goes to its language's approval column |
| UpdateIssues.OwnNumberMoves | bin/update-issues.py:164-195 | intended, the converse: the first issue with the title whose own number's card is found (id not 0) decides; that card goes to `APPROVAL_COLUMNS[language]` for a handled language, and nothing moves for another language |
| UpdateIssues.OwnNumberNoMove | bin/update-issues.py:164-176 | intended: when no issue with the title has its card found, nothing moves |
| UpdateIssues.UpdatePair | bin/update-issues.py:164-195 | the issue loop of one pair: skip titles that differ, continue when no card is found, stop for an unhandled language |
| UpdateIssues.Moves | bin/update-issues.py:159-195 | at most one move request per pair |
| UpdateIssues.CrashSticks | bin/update-issues.py:159-195 | after a failure no later pair sends anything |
| UpdateIssues.MovesFromPairs | bin/update-issues.py:159-195 | every move request is the outcome of one of the pairs |
| UpdateIssues.OwnNumberNeverCrashes | bin/update-issues.py:159-195 | with the intended comparison the pair loop never fails |
| UpdateIssues.MovePairs | bin/update-issues.py:159-195 | the pair loop sends the moves of the zipped pairs, in order, up to the first failure |
| UpdateIssues.UpdateIssues | bin/update-issues.py:107-195 | exit 1 without a directory; otherwise the result is `ScriptResult`: the staged captions' failure, exit 0 with no tracker access when nothing is staged, the `content_url` failure with no move sent when a listed card lacks one, else the move requests of `Moves` over the cards gathered from the scanned columns |

## Left out

- Network traffic is not modelled. The responses of the video platform and
  the tracker are inputs: issue lists, column listings, API items, pages.
  The requests sent are recorded values. OAuth and credential files are not
  modelled either.
- The HMAC-SHA1 digest of the webhook body is the parameter `hexDigest`.
  Only the equality gate is modelled. Constant-time comparison is not
  modelled.
- Flask routing, the home and favicon routes, and the commented-out
  platform webhook are not modelled.
- File system work is not modelled. `git add -n`, `os.walk`, file reads,
  `makedirs` and file writes become inputs, or a returned list of writes.
- `os.path.abspath` is a parameter of `CaptionsDirectory`. Its `..`
  normalisation is not modelled.
- `remove_country_code` is a parameter, `normalize`. It is imported from
  `lib/common.py`, but that file does not define it.
- Date and duration handling is kept as the API's text or as precomputed
  values:
  - `dateutil`;
  - `isodate`;
  - `strftime` with locales;
  - `slugify`.
- Template rendering (`str.format`) is the parameter `render`. The
  templates' text is kept in `GithubConfig.TemplateText`, but no property
  depends on it.
- The tracker's answers are simplified:
  - label lookups (`repo.get_label`) are taken to succeed;
  - new issue ids and numbers come from sequential counters;
  - a failing request is not modelled.
- The existence test of the captions directory in `suffix-commit.py` and
  `update-issues.py` is the boolean input `isDir`.
- Logging, colored printing and command-line parsing are not modelled. This
  includes the swapped "Added"/"Removed" log messages of the webhook.
- Python's object-model quirks are not modelled: the self-referential
  `Caption.id` property and the kwargs constructor.
- `Webhook.Labellize`: only a missing payload key gives 500. A key that is
  present with `null` or another JSON type (a `null` `content_url` makes
  `re.search` raise too) is not modelled.
- A card listing's missing `content_url` (KeyError) and a `null` one
  (TypeError from `re.search`) are one case, `RawCard.contentUrl == None`,
  and one failure, `MissingKey("content_url")`: the script ends either way.
- `SuffixCommit.FirstWatchIdOf`: the round trip is stated only for bodies
  with no `h` before the URL. `WatchIdFromLeftmost` covers every body.
- Carriage returns get no special treatment in caption files, as in
  Python 2 text mode on POSIX.

## Findings

| source | as written | input that shows it | evidently intended | confidence | as-written member | corrected member |
|---|---|---|---|---|---|---|
| bin/update-issues.py:171 | each card is compared with `issue_number`, the number of the last card gathered at line 152 | issue #5 titled `t`, cards (50 → #5) then (70 → #7), a pair with title `t` in `fr`: card 70 is moved | compare with the matching issue's own number, so card 50 is moved | high, not executed | UpdateIssues.StaleNumberMovesOtherCard | UpdateIssues.OwnNumberOutcome |
| bin/update-issues.py:174-176 | when no scanned card has a URL ending in a number, `issue_number` is never bound; the card loop then does nothing, and the warning at the first title match raises `NameError` | no gathered card, one issue whose title matches a staged caption | the issue's own number is always bound; the script goes on to the next issue | high, not executed | UpdateIssues.NoCardsCrash | UpdateIssues.OwnNumberNeverCrashes |

`UpdateIssues.UpdateIssues` takes the comparison as a parameter (`Lookup`):
`LastParsed` is the script as written, `OwnNumber` the corrected one.
