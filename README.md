# MP4 Downloader: a verified model of its core

MP4.py is a command-line YouTube downloader. It extracts video links from
pasted text and canonicalises them to `https://www.youtube.com/watch?v=<id>`.
It finds a cookie source: a cookie file in one of three places, else a
browser whose cookie store works, else none. Then it downloads every video in
turn. For each video it tries four strategies in a fixed order. Each strategy
builds its own downloader options, probes the video's metadata to pick a
format, downloads, and checks that a video file of at least 10,000 bytes came
out. The run's exit code says whether any download succeeded.

The model keeps the program's own structure, in eleven modules:

- `Common`: `Option`, and the two list walks the program repeats: keeping the
  items that pass a test (`Filter`), and taking the first item that passes
  (`FirstWhere`).
- `Text`: the parts of CPython's `str` that the program uses: `isspace`,
  `splitlines`, `strip` with a character set, `split`, `find`/`rfind`,
  `lower` where it yields ASCII, and `int`/`str` on decimal text.
- `Urls`: `normalize_video_url`, with `urlparse` and `parse_qs` written
  after CPython's `urlsplit`, `urlparse` and `parse_qsl`.
- `Extract`: `extract_urls`.
- `Formats`: the metadata values, `_to_int`, `_to_float`, `_stream_sort_key`
  and `choose_download_format`.
- `Files`: the disk as a value. It holds a map from resolved path to entry
  (regular file or not, size, modification time), the program's folder, and
  the output folder's listing. It also has the `pathlib` operations that are
  used (`name`, `suffix`, `stem`, `with_suffix`, `unlink`).
- `Reconcile`: `snapshot_output_folder`, `find_new_video_files` and
  `resolve_output_from_info`.
- `Options`: the option dictionary handed to the downloader library. It is a
  class, because the program edits it in place.
- `Cookies`: `find_cookie_file`, `detect_cookie_source` and
  `apply_cookie_source`.
- `Orchestrator`: `download_strategies`, `summarize_exception`,
  `probe_format` and `download_video`.
- `Session`: the loop of `run` over the queue, and its exit code.

The pure parts are functions. The loops of the core are methods with
loops, each proved equal to the function that specifies it, with two
exceptions. The two-key loop over `("filepath", "_filename")` in
`resolve_output_from_info` (MP4.py:391-394) is written out as its two passes
in `Reconcile.ReportedPaths`. The generator sum behind `success_count`
(MP4.py:711) is the recursive function `Session.SuccessCount`. The
properties are proved about the specifying functions.

The downloader library is a `Service` value holding two functions:
- the metadata probe, a function of the URL and the options, which returns
  an info value or raises;
- the download, a function of the URL, the options and the disk, which
  raises or returns an info value, and either way leaves a new disk.

The browser probe `browser_cookie_source_is_valid` is a predicate on browser
names. `base_download_options()` is a parameter of the job.

`download_video` takes the snapshot of the output folder once, before the
loop (MP4.py:513), and `DownloadedVideo` does the same. So a file left
behind by one strategy still counts as new for the next.

## Model

| member | source | states |
|---|---|---|
| Urls.NormalizeVideoUrl | MP4.py:87-127 | The result is either "" or `https://www.youtube.com/watch?v=` followed by an 11-character id over `[A-Za-z0-9_-]`. |
| Urls.WatchParsed | MP4.py:98-104 | `urlparse` splits `https://<host>/watch?v=<id>` into scheme, host, the path `/watch` and the query `v=<id>`. That parse normalises to the watch URL of `<id>`. |
| Urls.ShortParsed | MP4.py:98-110 | `urlparse` splits `https://<short host>/<id>` into host and path `/<id>`. The short-link branch turns it into the watch URL of `<id>`. |
| Urls.EmbedParsed | MP4.py:98-125 | `urlparse` splits `https://<host>/<kind>/<id>` into host and path. |
| Urls.NormalizeBareId | MP4.py:92-93 | A bare 11-character id becomes its watch URL. |
| Urls.NormalizeWatchForm | MP4.py:112-118 | `https://www.youtube.com/watch?v=<id>` and `https://youtube.com/watch?v=<id>` become the watch URL of `<id>`. |
| Urls.NormalizeBareWatchForm | MP4.py:95-118 | The same two watch forms written without a scheme get `https://` and become the watch URL of `<id>`. |
| Urls.NormalizeShortLink | MP4.py:106-110 | `https://youtu.be/<id>` becomes the watch URL of `<id>`. |
| Urls.NormalizeBareShortLink | MP4.py:95-110 | `youtu.be/<id>` becomes the watch URL of `<id>`. |
| Urls.NormalizeEmbedded | MP4.py:120-125 | `/shorts/<id>`, `/embed/<id>` and `/live/<id>` on either main host become the watch URL of `<id>`. |
| Urls.NormalizeSameVideo | MP4.py:87-127 | A bare id and its short link normalise to the same URL. |
| Urls.NormalizeFixedPoint | MP4.py:87-127 | A canonical watch URL normalises to itself. |
| Urls.CanonicalFixed | MP4.py:87-127 | Every possible result of normalisation ("" or a canonical URL) is left unchanged by it. |
| Urls.NormalizeIdempotent | MP4.py:87-127 | Normalising twice gives the same as normalising once, for every input. |
| Extract.CandidatesCanonical | MP4.py:132-138 | Every URL the first loop collects is a canonical watch URL. |
| Extract.DedupSameElements | MP4.py:140-147 | Deduplication keeps exactly the URLs that were collected. |
| Extract.DedupDistinct | MP4.py:140-147 | No URL occurs twice after deduplication. |
| Extract.DedupFirstOccurrenceOrder | MP4.py:140-147 | The deduplicated URLs are ordered by where each first occurs among the collected ones. |
| Extract.PieceCandidate | MP4.py:133-138 | One piece is cleaned of whitespace, quotes and brackets, and normalised; a piece cleaned to nothing contributes nothing. |
| Extract.CollectCandidates | MP4.py:131-138 | The first loop collects the non-empty normalisations of the pieces, in order. |
| Extract.Deduplicate | MP4.py:140-147 | The second loop equals the first-occurrence deduplication. |
| Extract.ExtractUrls | MP4.py:130-147 | The result is the deduplication of the collected URLs. Every URL in it is canonical, and none repeats. |
| Text.FirstLine | MP4.py:440 | `splitlines()[0]` is a prefix of the text with no line break in it, ending at the first line break. |
| Text.ParseIntOfNatToString | MP4.py:179-183 | `int` reads back what `str` writes for a natural number. |
| Text.ParseIntOfIntToString | MP4.py:179-183 | `int` reads back what `str` writes for any integer, negative ones included. |
| Text.LowerChar | MP4.py:374 | `str.lower` on one character where the result is ASCII: each capital becomes its small letter, 32 code points on, the Kelvin sign becomes `k`, and nothing else changes. |
| Text.StripEnds | MP4.py:437 | A stripped non-empty text neither starts nor ends with whitespace. |
| Formats.Truncate | MP4.py:181 | `int` of a float truncates toward zero. |
| Formats.ToInt | MP4.py:179-183 | `_to_int` gives 0 for `None`, a list or a dict, where `int` raises. It gives 1 or 0 for a bool and truncates a float toward zero. A string gives a non-zero value only when it holds a digit. |
| Formats.ToFloat | MP4.py:186-190 | `_to_float` gives 0.0 for `None`, a list or a dict, where `float` raises. It gives 1.0 or 0.0 for a bool and the same number for an int. |
| Formats.NumberTextReadsBack | MP4.py:179-183 | The decimal text of an integer reads back as that integer through `_to_int`. |
| Formats.Key | MP4.py:193-199 | A missing height or frame rate counts as 0. The bitrate is `tbr` when that is truthy, else `vbr`. The size is `filesize` when that is truthy, else `filesize_approx`. |
| Formats.Or | MP4.py:197-198 | `a or b` is truthy exactly when `a` or `b` is. |
| Formats.KeyLessTotal | MP4.py:193-199 | The tuple order on sort keys is total and asymmetric. |
| Formats.KeyLessTransitive | MP4.py:193-199 | The tuple order on sort keys is transitive. |
| Formats.Classify | MP4.py:210-226 | An entry is classified only when it is a dict with a truthy format id and no DRM. It is video-only exactly when it has a video codec and no audio codec, and progressive exactly when it has both. |
| Formats.OfKindElements | MP4.py:207-226 | A descriptor is kept under a kind exactly when some entry of the list is that descriptor and is of that kind. |
| Formats.OfKindEmpty | MP4.py:207-226 | No descriptor is kept under a kind exactly when no entry is of that kind. |
| Formats.BestKeyIndexIsFirstMaximum | MP4.py:229-230 | No key is greater than the chosen key, and every key before it is strictly smaller. |
| Formats.BestIndexIsFirstMaximum | MP4.py:229-230 | No descriptor has a greater sort key than the chosen one, and every earlier descriptor has a strictly smaller key. |
| Formats.SortedHeadIsBest | MP4.py:229-230 | The head of the stable descending sort is the first descriptor with the greatest key, so ties keep their order. |
| Formats.PickIsUsable | MP4.py:210-243 | The picked descriptor is one of the entries and is of the kind it was picked as. It has a format id, no DRM flag, and a video codec. |
| Formats.PickPrefersVideoOnly | MP4.py:228-236 | When any video-only entry exists, the pick is video-only, and no video-only entry has a greater key. |
| Formats.PickProgressive | MP4.py:238-243 | With no video-only entry but some progressive one, the pick is progressive, and no progressive entry has a greater key. |
| Formats.SelectionFor | MP4.py:228-243 | A video-only pick gives a selector that starts with `<id>+bestaudio` and a label that starts with `video-only `. A progressive pick gives the selector `<id>` and a label that starts with `progressive `. |
| Formats.Selection | MP4.py:202-245 | With nothing picked, the result is the generic selector with `generic-best`. Otherwise it has the shape of the picked kind, built from the pick's format id. |
| Formats.SelectionGeneric | MP4.py:203-245 | The generic `bestvideo*+bestaudio/bestvideo+bestaudio/best` with label `generic-best` is chosen exactly when `formats` is not a list or no entry is a usable video stream. |
| Formats.Partition | MP4.py:207-226 | The first loop sorts the entries into the video-only and progressive lists, in entry order. |
| Formats.Best | MP4.py:229-230 | A scan for the first greatest key returns the head of the descending sort. |
| Formats.ChooseDownloadFormat | MP4.py:202-245 | Returns the selector and label of the selection cascade: `<id>+bestaudio[acodec!=none]/<id>+bestaudio/<id>/best` with `video-only <h>p`, else `<id>` with `progressive <h>p`, else the generic pair. |
| Files.Unlink | MP4.py:580 | Unlinking removes the path from the disk and from the listing, and nothing else. |
| Files.KelvinSuffixIsVideo | MP4.py:374-377 | A name whose suffix is `.m`, the Kelvin sign and `v` counts as a video file, as `.MKV` and `.mkv` do. |
| Files.Suffix | MP4.py:374 | A suffix is empty, or a dot and at least one more character ending the name. |
| Reconcile.SnapshotOf | MP4.py:361-366 | The snapshot holds exactly the listed regular files, each with its size. |
| Reconcile.SnapshotOutputFolder | MP4.py:361-366 | The loop builds that snapshot. |
| Reconcile.InsertNewestPermutes | MP4.py:383 | Inserting a path into the newest-first list adds exactly that path. |
| Reconcile.InsertNewestOrdered | MP4.py:383 | Inserting into a newest-first list keeps it newest first. |
| Reconcile.SortNewestCorrect | MP4.py:383 | The stable sort by descending modification time is a permutation of its input and is newest first. |
| Reconcile.SortNewestElements | MP4.py:383 | The sort changes no membership. |
| Reconcile.SortNewestHead | MP4.py:383 | The head of the sort is the first listed path with the latest modification time. No path is later, and every earlier path is strictly older, so on a tie `created[0]` is the earlier path. |
| Reconcile.VideoPathNotPartial | MP4.py:374-377 | A path with a video extension never has a `.part` or `.ytdl` suffix, so that test never skips a file. |
| Reconcile.NewVideoFilesMembers | MP4.py:369-384 | A path is returned exactly when it is listed, is a regular file with a video extension, and is absent from the snapshot or has another size now. |
| Reconcile.NewVideoFiles | MP4.py:369-384 | The result holds the passing paths, each as often as it passed, newest first. |
| Reconcile.NewVideoFilesExactly | MP4.py:369-384 | The result holds those paths, each as often as it passed, newest first. |
| Reconcile.NothingNewSinceSnapshot | MP4.py:361-384 | Against a snapshot of the same folder, no file is new. Unchanged files are never returned. |
| Reconcile.FindNewVideoFiles | MP4.py:369-384 | The loop with its three `continue`s, then the sort, gives those new video files. |
| Reconcile.FirstVideoFile | MP4.py:413-416 | What is found is one of the paths, an existing regular file with a video extension. Nothing is found exactly when no path qualifies. |
| Reconcile.FirstVideoFileIsFirst | MP4.py:413-416 | What is found comes before every other qualifying path in checking order. |
| Reconcile.CheckedCovers | MP4.py:406-411 | Every reported candidate is checked as itself, inside the output folder, and as an `.mp4` when its suffix is not `.mp4`. |
| Reconcile.ReportedPaths | MP4.py:391-404 | The first two loops collect the non-blank string paths of `filepath`, `_filename` and each dict entry of `requested_downloads`, in that order. |
| Reconcile.CandidateVariants | MP4.py:407-411 | The variants of one candidate are: itself, its `.mp4` twin when the suffix is not `.mp4`, and the same name in the output folder. |
| Reconcile.ExpandCandidates | MP4.py:406-411 | The third loop lists every candidate's variants, candidate by candidate. |
| Reconcile.FirstExisting | MP4.py:413-416 | The last loop returns the first checked path that is an existing video file. |
| Reconcile.ResolvedOutput | MP4.py:387-416 | A non-dict info gives nothing. A path found is one of the checked variants of the reported paths, and an existing regular file with a video extension. |
| Reconcile.ResolveOutputFromInfo | MP4.py:387-416 | A non-dict info gives nothing; otherwise the result is the first existing video file among the checked variants. |
| Common.FilterElements | MP4.py:369-384 | An item is kept exactly when it is in the list and passes. |
| Common.FirstWhereIsFirst | MP4.py:413-416 | The item found sits at a position with no passing item before it. |
| Common.FirstWhereAt | MP4.py:249-255 | A passing item with no passing item before it is the one found. |
| Options.OptionsDict.constructor | MP4.py:528 | The new dictionary is a copy of the base options. |
| Options.OptionsDict.Set | MP4.py:531 | Setting a key changes that key only. |
| Options.OptionsDict.Pop | MP4.py:302-303 | Popping a key removes that key only. |
| Cookies.CookieFile | MP4.py:248-256 | The cookie file found is one of `cookies.txt` in the program folder, in `system/` or in `resources/`, and is non-empty. None is found exactly when none of the three is. |
| Cookies.FindCookieFile | MP4.py:248-256 | The loop returns the first of the three places, in that order, that holds a non-empty file. |
| Cookies.DetectedSourceCases | MP4.py:281-298 | The mode is `file` exactly when a cookie file exists, with the file's path as value. It is `browser` exactly when there is no file and some browser passes the probe, with value `(browser,)` and description `browser cookies: <browser>`. Otherwise it is `none`. |
| Cookies.FirstValidBrowser | MP4.py:290-296 | The browsers are probed in the order edge, chrome, firefox, brave, opera, vivaldi, and the first that passes is taken. |
| Cookies.DetectedSource | MP4.py:281-298 | The mode is `file`, `browser` or `none`. In the first two modes the value is truthy, so applying the source always sets its cookie key. |
| Cookies.DetectCookieSource | MP4.py:281-298 | The method computes that detected source. |
| Cookies.CookieOptions | MP4.py:301-310 | No key is added except the two cookie keys. Without cookies, both are removed and nothing else changes. |
| Cookies.CookieOptionsKeys | MP4.py:301-310 | `cookiefile` is present exactly when cookies are used, the mode is `file` and the value is truthy, and it then holds `str(value)`. `cookiesfrombrowser` is present exactly in the same case for mode `browser`, and then holds the value. |
| Cookies.CookieOptionsAtMostOne | MP4.py:301-310 | At most one of the two cookie keys is set. Neither is set without cookies or in mode `none`. |
| Cookies.CookieOptionsOthersUnchanged | MP4.py:301-310 | Every other key keeps its presence and its value. |
| Cookies.DetectedSourceApplied | MP4.py:281-310 | With the detected source and cookies on, the options name exactly the file found, or the browser found, or neither. |
| Cookies.ApplyCookieSource | MP4.py:301-310 | The in-place edit leaves exactly the dictionary `CookieOptions` describes. |
| Orchestrator.DownloadStrategies | MP4.py:313-335 | There are four strategies with distinct names, and exactly the first two use cookies. |
| Orchestrator.SummarizeException | MP4.py:436-443 | A blank message gives the class name. Otherwise the summary is a non-empty single line of at most 180 characters. |
| Orchestrator.SummaryShape | MP4.py:436-443 | For a non-blank message: when the stripped message has a line break within its first 181 characters, or is at most 180 characters long, the summary is its whole first line (a prefix that ends at the text's end or at a line break). Otherwise the summary is the message's first 177 characters followed by `...`. |
| Orchestrator.ChosenOutputIsVideo | MP4.py:572-573 | The file a pass settles on is an existing regular file with a video extension. |
| Orchestrator.AttemptSucceeded | MP4.py:528-602 | A pass succeeds only with an existing video file of at least 10,000 bytes. Its result has the URL, the strategy name and the probe label joined by a space-padded vertical bar, the file, and the error "". |
| Orchestrator.AttemptFailed | MP4.py:556-581 | A pass fails in one of three ways: the download raised (its summary is the error), no file was found, or the file was too small (`downloaded file was too small: <name>`, and the file is gone afterwards). |
| Orchestrator.AttemptIgnoresLastError | MP4.py:535-581 | What a pass does does not depend on the error remembered before it. |
| Orchestrator.SelectionOfSameInfo | MP4.py:535-543 | The selector and label a pass uses depend only on the info the probe returned. A probe that raises gives the generic pair, whatever it raised. |
| Orchestrator.AttemptOfSameInfo | MP4.py:535-581 | Two probes that return the same infos and raise at the same places give the same pass. |
| Orchestrator.RunOfSamePasses | MP4.py:517-611 | Two loops whose passes agree everywhere end alike. |
| Orchestrator.ProbeErrorOverwritten | MP4.py:513-611 | `download_video` returns the same result and leaves the same folder whatever a failed probe raised. So the `format probe failed: ...` error recorded at MP4.py:541 is never reported. Every later step of the pass replaces it, in the three ways `AttemptFailed` lists, or discards it on a success. |
| Orchestrator.RunIsOutcome | MP4.py:517-611 | The loop ends as its trace of passes says: with the success of the last pass, or `all strategies failed` with the error of the last pass. |
| Orchestrator.StepsShape | MP4.py:517-581 | Every pass but the last one failed, and the loop stops early only on a success. |
| Orchestrator.StepsInOrder | MP4.py:517-581 | Pass `i` tries strategy `i` on the folder and with the error that pass `i - 1` left. |
| Orchestrator.OutcomeOfSteps | MP4.py:595-611 | The loop reports the last pass's success, or, once all four strategies have failed, the last pass's error. |
| Orchestrator.DownloadedVideo | MP4.py:513-611 | A download reports on its own URL. A success carries an accepted video file of at least 10,000 bytes and the error "". A failure is `all strategies failed` with no file. |
| Orchestrator.RunReports | MP4.py:517-611 | The loop reports only what its passes report on success, or the failure. |
| Orchestrator.DownloadSucceeded | MP4.py:513-602 | A successful download is the success of some strategy `k`, every earlier strategy having failed. Its result has an accepted file, the name of strategy `k` and its probe label joined by a space-padded vertical bar, the URL and the error "". |
| Orchestrator.DownloadFailed | MP4.py:604-611 | A failed download tried all four strategies, each failed, and its result is `all strategies failed` with the fourth pass's error. |
| Orchestrator.ProbeFormat | MP4.py:419-433 | The probe with its handler returns the selection for a dict info, the generic pair for any other info, and on a raise the generic pair with `last_error` set to `format probe failed: <summary>`. |
| Orchestrator.JudgeDownload | MP4.py:572-602 | After a finished download: the newest new video file, else the file the info names, is judged. No file, or one under 10,000 bytes (which is deleted), fails; otherwise the title is `info["title"]` or the stem. |
| Orchestrator.TryStrategy | MP4.py:528-602 | One pass with the options built in place, as `Attempt` describes it. |
| Orchestrator.DownloadVideo | MP4.py:513-611 | The snapshot is taken once. The strategies are tried in order from the error `unknown download error`, and the method returns exactly `DownloadedVideo`. |
| Session.DownloadedVideoUrl | MP4.py:704 | A download reports on the URL it was given. |
| Session.DownloadedAllInOrder | MP4.py:683-705 | The queue gets one result per URL, in queue order. |
| Session.SuccessCountCountsSuccesses | MP4.py:711 | The success count is the number of successful results. |
| Session.SuccessCountBounds | MP4.py:711-712 | The success count is at most the number of results, and it is 0 exactly when nothing succeeded. |
| Session.ExitCode | MP4.py:718-720 | The exit code is 1 exactly when no download succeeded, and 0 exactly when one did. |
| Session.DownloadAll | MP4.py:683-705 | The loop downloads the URLs one after another, carrying the folder from each download to the next. |
| Session.RunQueue | MP4.py:683-720 | The tail of `run`: one result per URL, in order. The success count is the count of successful results, and the failed count is the rest of the queue. The exit code is 1 exactly when nothing succeeded. |

## Left out

- The downloader library itself (`yt_dlp.YoutubeDL`, `extract_info`): it is the `Service` parameter. The probe's answer is an arbitrary function of the URL and the options. The download's answer is an arbitrary function of the URL, the options and the disk.
- `browser_cookie_source_is_valid`: it asks the library to read one playlist entry, so it is the `valid` predicate on browser names.
- `base_download_options()`, `USER_AGENT` and the logger: the base options are an opaque map in the job.
- `progress_hooks`, `create_progress_hook`, `format_bytes`, `format_eta` and all console and progress output: this is user interface only. The options handed to the download do not carry `progress_hooks`.
- `parse_args`, `collect_raw_input`, `ensure_runtime_folders`, the render functions, the early exits of `run` (input file missing, no links, confirmation declined) and its KeyboardInterrupt handler returning 130: these are I/O and control outside the modelled core, so `RunQueue` starts with the extracted URLs.
- `setup_env.py`: environment setup, not part of this model.
- Path resolution: paths are already-resolved strings, and `Path(value)` of a reported path is the string itself. `OUTPUT_DIR.glob("*")` is the disk's `listing`, in whatever order the listing yields. Python does not fix that order, so the stable modification-time sort is stated against it.
- `Files.WithSuffix`: `with_suffix` raises on a path with an empty name; the model returns the path with `.mp4` appended instead.
- Modification times are integers, not floats.
- `Text.Lower`: lowers the ASCII capitals and the Kelvin sign, the only characters whose lowercase is ASCII, and keeps every other character. Python lowers many more, but always to characters outside ASCII (`\u0130` becomes `i` followed by a non-ASCII combining dot). So a comparison with the ASCII texts the program reads (schemes, hosts, `.mp4`, `.part`, `.ytdl` and the video extensions) comes out as it does in Python, and `Files.KelvinSuffixIsVideo` shows a suffix written with the Kelvin sign accepted as `.mkv`.
- `Formats.ToFloat`: reads plain decimals only. Exponents, `inf`, `nan`, underscores and non-ASCII digits in a numeric string give 0.0, where Python would parse them.
- `Formats.ToInt`: underscores and non-ASCII digits in a numeric string give 0, where Python would parse them. `int` of a list or dict gives 0, as Python's raise does.
- `Formats.AsText`: `str()` of a float, list or dict is "", so a format id or title of such a type is not rendered as Python would.
- `Urls.NormalizeVideoUrl`: `urlparse` is modelled for the inputs the program can meet. The validation of bracketed IPv6 hosts and the NFKC check on the network location are not modelled.
- The `.part`/`.ytdl` test in `find_new_video_files` is modelled as written; `Reconcile.VideoPathNotPartial` proves it never skips a file.
- The format-probe error that `download_video` records is never read later, so `Attempt` binds it and drops it. `Orchestrator.ProbeErrorOverwritten` proves that the whole download does not depend on it.
