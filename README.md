# EPIC Earth Bot: the tracking ledger and the rules built on it

EPIC Earth Bot turns each day of NASA EPIC imagery into a short time-lapse
video and publishes it on YouTube. For each `YYYY-MM-DD` date it records in
`data/tracking.json` whether the video was built (and where it is) and
whether it was uploaded (and under which video id). This project is a Dafny
model of that ledger and of the rules that read and change it:

- `tracking.dfy` (module `Tracking`): the ledger of `utils/tracking.py`.
  The self-healing `is_video_created` read, the `is_uploaded` flag read,
  the two order-preserving "needing" filters, and the mutators
  `mark_video_created`, `mark_uploaded` and `cleanup_old_entries`, as
  methods of a `Ledger` class whose field `data` is the file's contents.
  Each mutator is proved against a function giving the new contents.
- `pipeline.dfy` (module `Pipeline`): `main.py`. The lookback window of
  `get_recent_epic_dates`, and the per-date loops of
  `create_missing_videos` and `upload_missing_videos`. Each loop is proved
  equal to a left fold over the dates (`CreateRun`, `UploadRun`). Lemmas
  about the folds give the counters, the "at most once per occurrence"
  bound, the frames cleanup after every date, the title-based duplicate
  check, and which ledger entries may change.
- `youtube_upload.dfy` (module `YouTubeUpload`): the title and description
  builders, the paginated title-to-id listing, the bounded retry of
  `upload_video`, and the snippet merge of `update_video_metadata`. The
  result of `delete_video` (true exactly when the delete call did not
  raise) is the `deleteRaised` parameter of the remove action in `Tui`.
- `nasa_api.dfy` (module `NasaApi`): the archive URL of an image, and
  `download_images`: one `frame_NNN.png` per item, cached frames not
  fetched again, and the final sort.
- `tui.py`'s reconciliation rules (module `Tui`, `tui.dfy`): the action menu
  of `manage_single_date` as a function of (has video, has upload), the
  guards of the single-date actions, `_batch_regenerate_all`, and the
  remote-wins `youtube_sync`.
- Support modules:
  - `wrappers.dfy`: `Option`, `Result` and Python truthiness of an optional
    string.
  - `strings.dfy`: Python's string order and sort, order-preserving
    filtering, and zero-padded decimals.
  - `calendar.dfy`: `strptime("%Y-%m-%d")`, `strftime("%B %d, %Y")`, and
    day numbers as in `date.toordinal()`.
  - `files.dfy`: the file system as a working directory and a set of
    absolute paths.

The outside world enters as parameters:

- the NASA responses;
- whether an image fetch or a render succeeds;
- the outcome of each YouTube insert, delete or update call;
- whether logging in works;
- the user's answers to prompts;
- the current date and time.

`unmark_video_created` and `unmark_uploaded` are called by `utils/tui.py`,
but their definitions are not part of this model. The model takes each to
clear its own flag on an existing entry and to change nothing else
(`Tracking.WithoutVideo`, `Tracking.WithoutUpload`). That is an assumption
drawn from the call sites.

`create_missing_videos` and `upload_missing_videos` do not deduplicate
their date lists. `need_upload` keeps repeated dates, and the title check
runs against the listing fetched once before the loop. So a repeated date
whose upload succeeds is uploaded and counted twice
(`Pipeline.DuplicateDateUploadedTwice`). In the same way, a repeated date is
built twice by `create_missing_videos`.

## Model

| member | source | states |
|---|---|---|
| Tracking.Load | utils/tracking.py:21-27 | a missing or zero-length file is the empty ledger; a non-empty file that is not valid JSON is an error; otherwise the stored entries |
| Tracking.LoadSaveRoundTrip | utils/tracking.py:21-34 | loading what `_save` wrote gives back the same ledger, and saving what was loaded loads the same again |
| Tracking.Ledger.Open | utils/tracking.py:21-27 | the ledger opened from a file holds what `_load` returns; opening fails exactly when loading fails |
| Tracking.IsVideoCreated | utils/tracking.py:48-56 | true iff the date has an entry whose flag is set, whose path is non-empty and whose file exists now |
| Tracking.DatesNeedingVideo | utils/tracking.py:95-97 | an order-preserving subsequence of the input holding exactly the dates not reading as created, each as often as in the input |
| Tracking.DatesNeedingUpload | utils/tracking.py:100-102 | an order-preserving subsequence holding exactly the dates created and not uploaded, each as often as in the input |
| Tracking.NeedingVideoAndUploadDisjoint | utils/tracking.py:95-102 | no date needs both a video and an upload |
| Tracking.WithVideoCreated | utils/tracking.py:67-77 | the date's entry gets flag, path and timestamp, creating `{}` if absent; its upload fields are kept; other entries are unchanged |
| Tracking.WithUploaded | utils/tracking.py:81-91 | the date's entry gets upload flag, id and timestamp; its video fields are kept; other entries are unchanged |
| Tracking.WithoutVideo | utils/tui.py:857 | (assumed) clears only the video flag of an existing entry; same keys; other entries unchanged |
| Tracking.WithoutUpload | utils/tui.py:912 | (assumed) clears only the upload flag of an existing entry; same keys; other entries unchanged |
| Tracking.Purged | utils/tracking.py:105-121 | exactly the keys that do not parse as a date before the cutoff remain, with their entries; unparsable keys and the cutoff day itself stay |
| Tracking.MarkVideoCreatedReads | utils/tracking.py:67-77 | afterwards the date reads as created iff the recorded path is non-empty and exists; its upload read and every other date's reads are unchanged |
| Tracking.MarkUploadedReads | utils/tracking.py:81-91 | afterwards the date reads as uploaded; no date's created read changes; other dates' upload reads are unchanged |
| Tracking.UnmarkVideoReads | utils/tui.py:857 | afterwards the date reads as not created even if its file is on disk; nothing else reads differently |
| Tracking.UnmarkUploadReads | utils/tui.py:912 | afterwards the date reads as not uploaded; nothing else reads differently |
| Tracking.PurgedUnchangedIffNothingExpired | utils/tracking.py:117-121 | the purge leaves the ledger equal to itself iff no key is expired, so the file is left as it was exactly then |
| Tracking.Ledger.MarkVideoCreated | utils/tracking.py:67-77 | the new contents are `WithVideoCreated` of the old with the resolved path |
| Tracking.Ledger.MarkUploaded | utils/tracking.py:81-91 | the new contents are `WithUploaded` of the old |
| Tracking.Ledger.UnmarkVideoCreated | utils/tui.py:857 | the new contents are `WithoutVideo` of the old |
| Tracking.Ledger.UnmarkUploaded | utils/tui.py:912 | the new contents are `WithoutUpload` of the old |
| Tracking.Ledger.CleanupOldEntries | utils/tracking.py:105-121 | the key-by-key deletion loop leaves exactly `Purged` of the old contents at cutoff today minus keep_days |
| YouTubeUpload.TitleOfDate | utils/youtube_upload.py:131-138 | a valid date's key gives "Earth from Space - " + month name + " " + two-digit day + ", " + four-digit year + " \| NASA EPIC" |
| YouTubeUpload.TitleOfUnparsable | utils/youtube_upload.py:131-138 | a string strptime rejects is embedded verbatim |
| YouTubeUpload.TitleInjective | utils/youtube_upload.py:131-138 | distinct canonical date keys have distinct titles |
| YouTubeUpload.TitleCollisionUnpadded | utils/youtube_upload.py:133-134 | "2026-2-6" and "2026-02-06" get the same title, since strptime accepts unpadded fields |
| YouTubeUpload.TitleCollisionVerbatim | utils/youtube_upload.py:135-137 | the unparsable "February 06, 2026" gets the same title as "2026-02-06" |
| YouTubeUpload.LongDateExample | utils/youtube_upload.py:134 | 2026-02-06 is formatted as "February 06, 2026" |
| YouTubeUpload.TitleAndDescriptionAgree | utils/youtube_upload.py:141-156 | two strings share a title iff they share a description: both embed the same formatted date |
| YouTubeUpload.FinalPage | utils/youtube_upload.py:122-124 | the loop stops at the first page without a next-page token; every earlier page has one |
| YouTubeUpload.MergeKeys | utils/youtube_upload.py:118-121 | the listing's titles are exactly the titles of the items |
| YouTubeUpload.MergeLastWins | utils/youtube_upload.py:118-121 | a title maps to the id of its last occurrence |
| YouTubeUpload.MergeKeepsOthers | utils/youtube_upload.py:118-121 | a title no later item carries keeps its id |
| YouTubeUpload.GetUploadedVideoTitles | utils/youtube_upload.py:82-128 | `{}` when the channel list has no items; otherwise the merge of all items of the pages up to the first page without a token |
| YouTubeUpload.AddItems | utils/youtube_upload.py:118-121 | one page's loop extends the listing by that page's items, in order |
| YouTubeUpload.UploadVideo | utils/youtube_upload.py:159-257 | no insert call when the file is missing; at most 3 calls; every call before the last failed; the id of the first success, or None after 3 failures |
| YouTubeUpload.UpdateVideoMetadata | utils/youtube_upload.py:290-340 | false and no update when the lookup fails or finds nothing; otherwise only the given fields are replaced, `categoryId` is "28" only when absent, every other field is kept, and the result is whether the update did not raise |
| NasaApi.GetAvailableDates | utils/nasa_api.py:28 | the `date` of each response element, in response order |
| NasaApi.ImageUrlOfTimestamp | utils/nasa_api.py:63-73 | archive root + "/" + year + "/" + two-digit month + "/" + two-digit day + "/png/" + name + ".png", for years from 1000 on |
| NasaApi.ParseTimestamp | utils/nasa_api.py:70 | a timestamp written as "YYYY-MM-DD HH:MM:SS" parses back to its date |
| NasaApi.DownloadRunStops | utils/nasa_api.py:106-107 | once a fetch or a URL raised, later items change nothing |
| NasaApi.DownloadStepShape | utils/nasa_api.py:97-114 | each item appends its own frame path or raises; files are only added; a frame exists after its step iff it was appended or already existed |
| NasaApi.DownloadRunPaths | utils/nasa_api.py:95-114 | at most one path per item, exactly one per item when nothing raised, and the i-th path is `frame_{i:03d}.png` |
| NasaApi.DownloadRunFiles | utils/nasa_api.py:97-114 | the run only adds files, keeps the working directory, and every listed frame exists |
| NasaApi.DownloadRunFetched | utils/nasa_api.py:106 | no index past the processed items is recorded as fetched |
| NasaApi.CachedFramesNotFetched | utils/nasa_api.py:101-104 | a frame already on disk is never fetched |
| NasaApi.DownloadRunMoreCached | utils/nasa_api.py:97-114 | a download that succeeds with fewer cached frames also succeeds with more, and lists the same frames |
| NasaApi.FrameNameOrder | utils/nasa_api.py:99 | below index 1000, a smaller index sorts first |
| NasaApi.FramesInIndexOrder | utils/nasa_api.py:116 | with at most 1000 items the sort leaves the frames in index order |
| NasaApi.FrameThousandSortsEarly | utils/nasa_api.py:99 | from 1001 items on, `frame_1000.png` sorts before `frame_101.png` |
| NasaApi.DownloadImages | utils/nasa_api.py:76-118 | returns the sorted frame list or the error, and the disk after the loop |
| Pipeline.GetRecentEpicDates | main.py:52-64 | error iff some listed date does not parse or the cutoff is before year 1; otherwise exactly the dates in [today-14, today], each as often as listed, sorted |
| Pipeline.CreateStepMarksIff | main.py:94-120 | a date is marked and counted iff its metadata is non-empty, its frames download, there are at least 2 and rendering works; otherwise ledger and counter are unchanged |
| Pipeline.CreateStepLedger | main.py:92-120 | a step leaves the ledger alone, or marks the date with the resolved `output/epic_earth_{d}.mp4`, which then exists |
| Pipeline.CreateStepFiles | main.py:92-127 | a step keeps every file outside `frames/`, and nothing under `frames/` is left after it |
| Pipeline.OutputOutsideFrames | main.py:106-107 | the output file of a date is not under `frames/` |
| Pipeline.CreateRunCounts | main.py:86-129 | `created` equals the number of marks; no date is marked more often than it occurs in `need_video` |
| Pipeline.CreateRunUnmarkedUnchanged | main.py:86-129 | dates never marked keep their entry |
| Pipeline.CreatedDatesReadCreated | main.py:117-118 | every date marked reads as created at the end, with its output path recorded |
| Pipeline.FramesRemovedAfterRun | main.py:126-127 | after a run over at least one date nothing is left under `frames/` |
| Pipeline.CreateRunKeepsCwd | main.py:86-127 | the run keeps the working directory |
| Pipeline.CreateRunKeepsFiles | main.py:86-127 | files outside `frames/` survive the run |
| Pipeline.SecondRunRetriesOnlyFailures | main.py:73-129 | after a run, the dates still needing a video were needed before and were not built |
| Pipeline.BuildMonotone | main.py:95-103 | a date whose build succeeds with fewer cached frames also builds with more |
| Pipeline.CreateRunFailures | main.py:88-127 | marks only accumulate, and a needed date the run did not build would not build from an empty frames directory |
| Pipeline.CreateRunNoFrames | main.py:88-129 | starting without frames, a run over dates that cannot build creates 0 videos and changes no entry, and leaves no frames |
| Pipeline.SecondRunCreatesNothing | main.py:73-129 | a second `create_missing_videos` over the same dates, with the same outside world, creates 0 videos and leaves the ledger as the first run left it |
| Pipeline.CreateMissingVideos | main.py:73-129 | the new ledger, disk and count are those of the fold over `need_video`; 0 and nothing changed when no date needs a video |
| Pipeline.CreateEach | main.py:88-129 | the `for` loop equals the fold over its dates |
| Pipeline.CreateForDate | main.py:88-127 | one iteration, `finally` included, equals one step of the fold |
| Pipeline.BuildForDate | main.py:92-119 | the `try` body yields a video exactly when the build outcome is `Built`, at the resolved `output/epic_earth_{d}.mp4`, with the disk the build leaves |
| Pipeline.UploadRunCounts | main.py:159-201 | `uploaded` equals the number of marks; marks and upload attempts per date never exceed its occurrences; a newly marked date had its title listed or had an upload attempted |
| Pipeline.UploadRunListedMarked | main.py:161-170 | a date whose title is listed is marked as uploaded, with the listing's id for that title |
| Pipeline.UploadRunSkipsMissing | main.py:172-182 | an unlisted date with no entry, no recorded path or a missing file is neither attempted nor marked, and its entry is unchanged |
| Pipeline.UploadRunUnlistedIds | main.py:187-192 | an unlisted date is marked only after an upload attempt, and then with the id the first successful insert returned |
| Pipeline.UploadRunOutcomes | main.py:159-201 | from an empty start: listed dates carry the listing's id, marked unlisted dates carry the inserted id, dates without a usable file are skipped and keep their entry |
| Pipeline.UploadRunReads | main.py:162-170 | no upload is attempted for a date whose title is listed; every marked date reads as uploaded |
| Pipeline.UploadRunUnmarkedUnchanged | main.py:159-201 | dates never marked keep their entry |
| Pipeline.UploadStepUnmarkedUnchanged | main.py:161-199 | one step keeps earlier marks and changes no unmarked entry |
| Pipeline.UploadStepPublishes | main.py:174-193 | an unlisted date with an existing file whose first insert succeeds is uploaded and counted, keeping its path |
| Pipeline.DuplicateDateUploadedTwice | main.py:152-201 | a date listed twice whose upload succeeds is uploaded twice and counted twice |
| Pipeline.UploadMissingVideos | main.py:132-201 | 0 and no change when nothing needs upload or login fails; a failed listing counts as `{}`; otherwise the fold over `need_upload`, in which every listed date is marked with the listing's id, and every unlisted date without a usable file keeps its entry |
| Pipeline.UploadForDate | main.py:161-199 | one iteration equals one step of the fold |
| Tui.DisplayMatchesTitle | utils/tui.py:74-80 | the displayed date is the text the title and the description embed |
| Tui.DisplayOfDate | utils/tui.py:74-80 | a valid key is shown as month name, two-digit day and four-digit year |
| Tui.DisplayInjective | utils/tui.py:74-80 | distinct canonical keys are displayed differently |
| Tui.GetRecentDates | utils/tui.py:38-50 | the same window, sort and errors as `get_recent_epic_dates` |
| Tui.MenuLines | utils/tui.py:353-376 | the menu for each of the four flag combinations, line by line |
| Tui.MenuOffersVideoActions | utils/tui.py:353-376 | "create" iff no video; "regenerate", "edit_overlay" and "delete_local" iff a video |
| Tui.MenuOffersChannelActions | utils/tui.py:353-376 | "upload" iff a video and no upload; "reupload", "remove_yt" and "edit_meta" iff an upload |
| Tui.MenuKeys | utils/tui.py:353-376 | menu keys are unique and "0 Back" is always the last line |
| Tui.ManageActions | utils/tui.py:353-376 | the appends build the menu of (is_video_created, is_uploaded) |
| Tui.SelectedAction | utils/tui.py:385 | None iff no line has the typed key; otherwise the name of a line with that key |
| Tui.SelectedIsKeyed | utils/tui.py:382-385 | with unique keys, typing a line's key selects that line's action |
| Tui.UploadActionResult | utils/tui.py:547-582 | no change unless the path is non-empty, the file exists, the upload is confirmed, login works and an id came back; then only that date changes: uploaded, with that id and the upload time |
| Tui.ActionUploadVideo | utils/tui.py:547-582 | the new ledger is `UploadActionResult`; the upload is attempted only when the guards pass |
| Tui.RemoveActionResult | utils/tui.py:600-635 | no change unless there is a tracked id, it is confirmed, login works and the delete call did not raise; then only the upload flag of that date is cleared |
| Tui.ActionRemoveFromYoutube | utils/tui.py:600-635 | the new ledger is `RemoveActionResult`; `delete_video` is called iff there is an id, it is confirmed and login works |
| Tui.ActionReuploadVideo | utils/tui.py:585-597 | no change unless confirmed; otherwise the removal, then the upload, even when the removal did not happen |
| Tui.ActionEditYoutubeMetadata | utils/tui.py:638-688 | no remote call without a tracked id, when both answers are empty, or when login fails; otherwise the non-empty answers replace title and description, tags and other fields are kept |
| Tui.UnmarkRunEntries | utils/tui.py:852-857 | unmarking keeps every key and path, clears the flag of each listed date, leaves other dates alone, and only removes files |
| Tui.UnmarkRunRemovesVideos | utils/tui.py:852-857 | afterwards no listed date reads as created and each listed date's recorded file is gone |
| Tui.RegenerateNeedsAll | utils/tui.py:852-860 | the following `create_missing_videos` needs every listed date |
| Tui.BatchRegenerateAll | utils/tui.py:830-862 | no change when fetching dates fails or it is not confirmed; otherwise the unmarking loop, then the creation fold over all dates |
| Tui.SyncRunReads | utils/tui.py:901-914 | afterwards each processed date reads as uploaded iff its title is in the listing |
| Tui.SyncRunKeepsOthers | utils/tui.py:901-914 | unprocessed dates keep their entry, and no date's created read changes |
| Tui.SyncRunCounts | utils/tui.py:901-914 | the counters only grow, by at most one per date, and the ledger is unchanged when neither moved |
| Tui.SyncRunAdoptsId | utils/tui.py:905-910 | a processed date listed on the channel but not tracked ends up uploaded with the channel's id |
| Tui.SyncRunKeepsAgreeing | utils/tui.py:901-914 | a date on which the ledger already agrees with the channel keeps its entry |
| Tui.SyncRunSyncedCount | utils/tui.py:905-910 | `synced` is the number of distinct processed dates listed but not tracked |
| Tui.SyncRunDesyncedCount | utils/tui.py:911-914 | `desynced` is the number of distinct processed dates tracked but not listed |
| Tui.SyncOutcomes | utils/tui.py:898-914 | from zero counters: exact counts, every processed date agrees with the channel, and adopted dates carry the channel's id |
| Tui.SyncInSyncIsNoop | utils/tui.py:901-914 | a ledger that agrees with the listing is left as it is |
| Tui.SyncIdempotent | utils/tui.py:901-914 | a second sync against the same listing changes nothing and reports 0 added and 0 cleared |
| Tui.YoutubeSync | utils/tui.py:867-921 | no change when login, the listing or the dates fail; otherwise ledger and counters are those of the sync fold: the counters count the distinct dates added and cleared, every processed date agrees with the channel, and added dates carry the channel's id |
| Tui.SyncDate | utils/tui.py:902-914 | one iteration equals one step of the sync fold |

## Left out

- HTTP to the NASA API, the Internet Archive and YouTube, and the OAuth token flow (`utils/youtube_upload.py:41-79`): network I/O. Their outcomes are parameters (metadata results, fetch success, insert/delete/update outcomes, `authOk`).
- `get_images_metadata_for_date`: an HTTP request; its result per date is the `metadata` field of `Pipeline.BuildEnv`.
- Video rendering in `utils/video_engine.py` (FFmpeg, music choice, hashing, random offsets, float timing): `create_video` is the `renderOk` parameter, and on success it yields the resolved output path. `download_music.py` is not part of this model.
- Chunked upload progress and the retry sleep of `upload_video`: no effect on results.
- Terminal UI: Rich output, `_clear`, `_pause`, the dashboard, the settings screen, the main and batch menus, and the privacy prompt. The user's answers are parameters.
- `_action_create_video`, `_action_regenerate_video`, `_action_edit_overlay`, `_action_delete_local`, `_batch_create_videos` and `_batch_upload_videos`: they repeat the create and upload rules modelled for `main.py`, with more prompts.
- `main()`, `print_summary`, `get_all_entries` and `check_already_uploaded`: top-level wiring, printing, and a direct composition of the listing and the title.
- JSON serialisation and `mkdir`: the tracking file is its parsed contents, replaced as a whole.
- `created_at`, `uploaded_at` and `datetime.now`: the timestamp is an opaque `now` string, and today's date is a parameter.
- `strptime` is modelled for ASCII digits and the space character only; other Unicode digits and whitespace it also accepts are not modelled.
- Paths are compared as resolved strings: `.`, `..` and symbolic links are not normalised.
- `download_images` sorts `Path`s; the model sorts their strings, which agrees for frames of one directory.
- A download that raises part-way may leave a partial file on disk; the model adds a frame's file only when its fetch succeeds.
- NasaApi.ImageUrlOfTimestamp: stated for years from 1000 on; `{dt.year}` prints earlier years with fewer than four digits.
- Calendar.LongDate: `%Y` is always printed with four digits. For years below 1000, what `strftime("%Y")` prints depends on the platform's C library (glibc prints "999"), so `YouTubeUpload.TitleOfDate` and `Tui.DisplayOfDate` are exact only from year 1000 on.
- Tracking.CleanupCutoff: a cutoff before 0001-01-01 (or after 9999-12-31) makes `cleanup_old_entries` raise `OverflowError` (utils/tracking.py:109). The model takes the day number as it is, and then purges nothing (or every parsable key).
- `_get_recent_dates` and `get_available_dates` are called inside `_batch_regenerate_all` and `youtube_sync`. Those methods take the list they return, or the exception raised, as a `Result` parameter.
- `_get_youtube_service` is modelled by whether it returned a service (`authOk`).
- `unmark_video_created` and `unmark_uploaded`: their behaviour is assumed, as stated above.
