# song: a verified model of the album extractor and downloader

The song scripts download the audio tracks of an album whose listing the user copied from a
web page:

- `get_info.py` reads the clipboard, extracts the album title and its records (a title and
  a page URL per track) and saves them as the manifest `<album title>.json`.
- `download.py` does the same and then downloads every record into
  `<save dir>/<album title>/`.
- `download_list.py` downloads every manifest found in a directory.

This project models, in Dafny:

- the listing extractor `extract_songs_and_title`, both as the loop the scripts run
  (`Extractor.ScanLines`) and as a fold over the classified lines (`Extractor.Scan`);
- the file-name sanitiser;
- the normalisation and acceptance of `<source>` URLs;
- `download_music`: the page request, the loop over sources and the chunk loop that writes
  the file;
- the loop over an album's records;
- manifest naming;
- the three `main` functions.

The network is a parameter of type `Net`:

- `page` is what requesting a track's page gives: a failure or the `src` attribute of each
  `<source>` element;
- `media` is what the streamed request of a media URL gives: a failure, or the
  `content-length` header, the chunks, and whether the stream broke midway.

Both are functions of the URL, so a URL requested twice gets the same response in the
model; a real server may answer two requests for the same URL differently.

The disk is a `Disk` object holding a map from path to bytes. A run also records the
requests sent and the messages `download_music` prints, so that properties about order and
failure can be stated.

The extractor exists twice in the repository, as `download.py:28-71` and
`get_info.py:8-60`. The two copies differ only in their `print` calls, so one Dafny model
stands for both.

Modules:

| file | module | models |
|---|---|---|
| `wrappers.dfy` | `Wrappers` | `Option` |
| `text.dfy` | `Text` | the Python string operations the scripts call (`strip`, `split`, `startswith`, `endswith`, `in`, `replace`, `re.sub` over characters); `Join`, which only states what `split` inverts; and `IndexOf`, the first-occurrence search that the regular expressions perform |
| `extractor.dfy` | `Extractor` | line classification, the state machine, `extract_songs_and_title` |
| `scan_facts.dfy` | `ScanFacts` | what the extractor promises: header check, album title, the records and their titles |
| `sanitize.dfy` | `Sanitize` | the `replace` chain that makes a title a file name |
| `sources.dfy` | `Sources` | the `×tamp=` repair and the `id=`/`timestamp=`/`code=` test |
| `downloader.dfy` | `Downloader` | `download_music`, the disk and the chunk loop |
| `download_facts.dfy` | `DownloadFacts` | what a track's download does: which sources are fetched, in which order, and which file is written |
| `albums.dfy` | `Albums` | the `for song in songs` loop |
| `manifest.dfy` | `Manifest` | `<album>.json` naming and `filename[:-5]` |
| `scripts.dfy` | `Scripts` | the three `main` functions |
| `worked_example.dfy` | `WorkedExample` | a two-record listing worked through end to end |

Behaviour of the code worth noting:

- A listing of a single line that starts with `《` is not reported as malformed. The
  extractor reads `lines[1]` and raises `IndexError`. The model has an explicit
  `IndexError` outcome, and both scripts crash on it (`download.py:36`).
- Only `download_list.py` reports a source that lacks a required parameter. `download.py`
  skips it silently (`download.py:110`, `download_list.py:64-65`).
- A `RequestException` raised while fetching a media URL ends the whole track, not just
  that one source, because the `try` surrounds the source loop (`download_list.py:37-68`).
  Later tracks are still attempted.
- `get_info.py` checks only for an empty record list. `download.py` also compares the title
  with the sentinel `未知专辑`. The two checks refuse the same extractions
  (`Scripts.RefusalsAgree`).

## Model

| member | source | states |
|---|---|---|
| Extractor.ExtractSongsAndTitle | download.py:28-71 | the extractor as the script runs it (and as its copy at `get_info.py:8-60` does): header check, then the index loop, equals the fold `Extract` |
| Extractor.Extract | download.py:28-71 | `extract_songs_and_title` as a function of the text: `IndexError` only on a one-line listing, and at most one record per line |
| Extractor.ScanLines | download.py:42-69 | the loop that updates `base_title` and `tune` and appends records returns the records of the fold over the kinds of lines 2 onwards |
| Extractor.ScanLine | download.py:47-69 | one iteration of that loop on a stripped line leaves `base_title`, `tune` and `songs` as `Apply` says for the line's kind |
| Extractor.Classify | download.py:50-66 | how a stripped line is read: the kind it yields is well formed (a tune ends with `调` without parentheses, a link is a whitespace-free URL) and a link is a prefix of the line |
| Extractor.Apply | download.py:50-69 | one line: records are only appended, one exactly when a link comes while a non-empty base title is set; only header and tune lines change the title and the tune |
| Extractor.Scan | download.py:46-69 | the loop's state after the lines from index 2 on holds at most one record per line |
| Extractor.HasBase | download.py:67 | `base_title` is truthy: set and non-empty (a test with no contract of its own; `Extractor.Apply` states that a record is added exactly when it holds) |
| Extractor.FullTitle | download.py:68 | the record title starts with the base title, and differs from it, ending with the tune, exactly when a non-empty tune is set |
| Extractor.Lines | download.py:34 | `strip().split('\n')` gives at least one line |
| Extractor.LeadRun | download.py:50 | the greedy `\d+` and `\s*` runs: the longest prefix whose characters all qualify, ended by the first that does not |
| Extractor.GroupStart | download.py:50 | the capture of the header pattern starts inside the line, after `【` and the first digit, with no `】` before it; `Extractor.GroupStartAt` gives its exact position |
| Extractor.GroupStartAt | download.py:50 | on `【`, a digit run, an optional dot, a whitespace run and a rest whose first character cannot extend those runs, the capture starts exactly at the rest |
| Extractor.HeaderMatch | download.py:50-52 | the header pattern matches exactly the header lines; the capture holds no `】` and is followed by the first `】` |
| Extractor.HeaderMatchIs | download.py:50 | the lazy group stops at the first `】`: a `】`-free text followed by `】` where the capture starts is the group |
| Extractor.HeaderCapture | download.py:50-52 | on `【`, digits, an optional dot, whitespace, a `】`-free text `t`, `】` and anything after, the header pattern matches and its group is `t` (when the first character of `t` cannot be taken into the runs before it) |
| Extractor.TuneNote | download.py:57-59 | the note is a prefix of the line that holds no `调`; `Extractor.TuneNotePlain` and `Extractor.TuneNoteYuan` say which prefix |
| Extractor.TuneNotePlain | download.py:57-58 | before a lone `调`, the note is all the text in front of it, unless that text ends in `原` and a second `调` follows |
| Extractor.TuneNoteYuan | download.py:57-58 | before `原调调`, the note is the text in front of `原`: the optional group takes `原调` |
| Extractor.TuneOf | download.py:57-62 | the tune is the note plus `调` with the full-width parentheses deleted, so it ends with `调` and holds neither parenthesis |
| Extractor.UrlMatch | download.py:66 | the URL pattern matches exactly when the line starts with `http://` or `https://` and a non-space character; the match is the longest whitespace-free prefix |
| Extractor.ClassifyOrder | download.py:49-69 | the header pattern wins over the `调` search, which wins over the URL pattern: a line holding `调` is a tune line even when it starts with `http` |
| Extractor.KindsAt | download.py:47 | each line is classified after `strip()` |
| Extractor.NotUnknownAlbum | download.py:40 | a title that starts with `《` is never the sentinel title |
| ScanFacts.ScanGood | download.py:57-69 | every tune the loop sets is well formed, and every record has a non-empty title and a URL |
| ScanFacts.KindsWell | download.py:47-69 | every line is read as a well-formed kind |
| ScanFacts.ScanRecords | get_info.py:54-57 | one record per link line reached while a non-empty base title is set, in input order, with that title (and tune) and that link |
| ScanFacts.AfterHeader | get_info.py:38-51 | after a header and until the next one, the base title is that header's title and the tune is the last tune line's since that header |
| ScanFacts.BeforeAnyHeader | download.py:43-44 | before the first header there is no base title and no record |
| ScanFacts.NoRecordWithoutTitle | download.py:52 | a link line before any header, or after a header with an empty title, yields no record |
| ScanFacts.ScanLinks | download.py:66-69 | several link lines after one header append one record each, all with the same title, in order, and leave title and tune alone |
| ScanFacts.LinesCount | download.py:34 | there is a second line exactly when the stripped text holds a newline |
| ScanFacts.ExtractIndexError | download.py:36 | the extractor raises `IndexError` exactly when the stripped text starts with `《` and is one line |
| ScanFacts.ExtractSentinel | download.py:36-38 | the sentinel comes back exactly when line 0 lacks `《` or line 1 exists and is not blank (also `get_info.py:23-25`) |
| ScanFacts.ExtractAlbum | download.py:36-40 | past the check the title is `lines[0].strip()` and starts with `《`; the sentinel title comes with no records; every record has a title and a URL |
| Sanitize.SafeTitle | download.py:98 | the sanitised title (also `download_list.py:35`) holds no vertical bar and none of `? : " < > *`, and no character that was not in the title except the space and dash that replace a vertical bar |
| Sanitize.CharImage | download.py:98 | what one character becomes holds no forbidden character |
| Sanitize.SafeChars | download.py:98 | the character-by-character sanitiser never yields a forbidden character |
| Sanitize.SafeTitleConcat | download.py:98 | the `replace` chain distributes over concatenation |
| Sanitize.SafeTitleChar | download.py:98 | the chain maps the vertical bar to `" -"`, deletes `? : " < > *` and keeps every other character |
| Sanitize.SafeTitleIsSafeChars | download.py:98 | the `replace` chain equals the character-by-character sanitiser |
| Sanitize.SafeCharsKeepsClean | download.py:98 | a title with no forbidden character is kept as it is |
| Sanitize.SafeTitleIdempotent | download.py:98 | sanitising twice equals sanitising once |
| Sources.Normalize | download_list.py:48 | after the repair no `×tamp=` is left (also `download.py:109`) |
| Sources.Accepted | download_list.py:49 | the computed `in` tests accept a URL exactly when it holds `id=`, `timestamp=` and `code=` (also `download.py:110`) |
| Sources.NormalizeKeepsClean | download_list.py:48 | a `src` without `×tamp=` is left unchanged |
| Sources.MisencodedAccepted | download_list.py:48-49 | a `src` with `id=`, `code=` and only the mis-encoded timestamp is accepted once normalised |
| Sources.NoCodeRejected | download.py:109-110 | a `src` without `code=` is rejected, even with `id=` and a timestamp |
| Downloader.JoinPath | download_list.py:58 | `os.path.join` ends with its last component, and starts with the first one when the last is not an absolute path |
| Downloader.TrackPath | download_list.py:58 | the audio file is named after the safe title with `.mp3` added, and lies under the album directory unless the safe title starts with `/` |
| Downloader.DeclaredTotal | download_list.py:55 | `int(headers.get('content-length', 0))`: the header's value, or 0 without one (a value with no contract of its own; `Downloader.StreamToFile` states it) |
| Downloader.Disk.constructor | download_list.py:58 | the disk starts with the given files |
| Downloader.Disk.Create | download_list.py:58 | `open(path, 'wb')` leaves the file empty and touches no other |
| Downloader.Disk.Append | download_list.py:61 | `f.write(data)` appends `data` to that file only |
| Downloader.StreamToFile | download_list.py:55-61 | the file holds the chunks concatenated in order, the progress counter equals its length, and the declared total is the `content-length` or 0 |
| Downloader.FetchSource | download_list.py:50-63 | one accepted source adds exactly its media request and writes no file but the track's path; a whole stream leaves its bytes there; two messages about the track, the second "downloaded" exactly when the stream arrived whole |
| Downloader.SkipSource | download_list.py:64-65 | a rejected source sends nothing and writes nothing; it prints a message exactly for the manifest script (`download.py:110` has no `else`) |
| Downloader.RunSources | download_list.py:47-65 | the source loop keeps the requests and messages before it, sends at most one request per source, and every message it prints names the track |
| Downloader.TrackSpec | download_list.py:24-68 | `download_music` as a function: the first request is the track's page, and every message names the track's safe title |
| Downloader.FetchMedia | download_list.py:50-63 | one accepted source: a download message and a streamed request, the file written, then the download message or, on a `RequestException`, the error message and the end of the track |
| Downloader.DownloadMusic | download_list.py:24-68 | the page request, the early return on failure or on no `<source>`, and the source loop, as the specification `TrackSpec` states; for the clipboard script (`download.py:88-123`) with no message for a rejected source |
| DownloadFacts.AcceptedUrls | download_list.py:47-49 | the normalised sources the loop accepts, in order, are all accepted |
| DownloadFacts.SourcesFetchAccepted | download_list.py:47-68 | the media requests are a prefix of the accepted URLs in source order (all of them unless a `RequestException` ends the track); no other file is written, and none when nothing is accepted |
| DownloadFacts.SourcesLastWins | download_list.py:47-63 | when every accepted source is served whole, each is fetched in order into the same path, and the file ends with the last one's bytes |
| DownloadFacts.SourcesAllRejected | download_list.py:64-65 | with no acceptable source nothing is fetched or written; the manifest script prints "missing parameters" once per source, the clipboard script nothing |
| DownloadFacts.NoCodeNotFetched | download.py:109-112 | a source lacking `code=` is never fetched |
| DownloadFacts.TrackRequests | download_list.py:37-45 | the page is requested first; only `<safe title>.mp3` may be written; a failed page or one with no `<source>` gives no media request and no file |
| DownloadFacts.TrackAllRejected | download_list.py:42-65 | a page whose sources are all rejected leads to no request past the page and no file |
| Albums.RunSongs | download_list.py:88-90 | the loop over an album's records sends at least one request per record |
| Albums.DownloadSongs | download_list.py:88-90 | the loop over the records (also `download.py:145-146`) runs `download_music` on each in turn, from the files the previous one left |
| Albums.TrackPageUrls | download_list.py:38 | a track requests its own page and no other |
| Albums.SongsAttemptedInOrder | download_list.py:67-68 | every record's page is requested exactly once, in order, whatever `RequestException` occurs (the disk never fails in the model) |
| Albums.SongsOnlyTouchTheirFiles | download_list.py:58 | a file that is no record's `<safe title>.mp3` is left as it was |
| Manifest.ManifestName | download.py:138 | `<album>.json` ends with `.json` and starts with the album title |
| Manifest.IsManifest | download_list.py:79 | `endswith('.json')` holds exactly for the names that are the manifest name of some album title |
| Manifest.AlbumOf | download_list.py:80 | `filename[:-5]` on a `.json` name is the title whose manifest has exactly that name |
| Manifest.AlbumOfManifestName | download_list.py:79-80 | a name the clipboard script saves passes the `.json` filter and gives back its title |
| Manifest.ManifestNames | download_list.py:78-79 | the entries kept are exactly the `.json` entries of the listing |
| Scripts.GetInfoMain | get_info.py:93-99 | exit 1 exactly when no record was extracted; a crash exactly on `IndexError`; otherwise the extracted records, all of them and nothing else, saved under a real album title starting with `《` |
| Scripts.ClipboardRefuses | download.py:135 | download.py's exit test `not songs or album_title == "未知专辑"`; its relation to get_info.py's test is `Scripts.RefusalsAgree` |
| Scripts.RefusalsAgree | download.py:135 | the clipboard script's check refuses exactly the extractions `get_info.py` refuses |
| Scripts.MalformedExits | download.py:135-137 | a listing that fails the header check makes both scripts exit with status 1 |
| Scripts.DownloadMain | download.py:133-146 | a crash or a refusal touches no file; otherwise the manifest path is `<readDir>/<album>.json` and the records are downloaded into `<saveDir>/<album>` |
| Scripts.BatchSpec | download_list.py:78-90 | the run over a directory listing; a listing without a `.json` entry sends no request, logs no `download_music` message and writes nothing (the closing message at download_list.py:92 is not modelled) |
| Scripts.BatchSpecStep | download_list.py:78-90 | a proof step for `Scripts.BatchMain`, modelling no line by itself: one more directory entry unfolds `BatchSpec` once, so a `.json` entry runs its records from the files the earlier entries left, and any other entry changes nothing |
| Scripts.BatchMain | download_list.py:78-90 | the loop over the listing downloads each manifest's records into `<saveDir>/<name less .json>` |
| Scripts.BatchOnlyManifests | download_list.py:79 | the run over a listing is the run over its `.json` entries alone |
| Scripts.BatchAttemptsAll | download_list.py:78-90 | every record of every manifest is attempted exactly once, manifests in listing order and records in manifest order |
| WorkedExample.ListingExtracted | download.py:28-71 | the listing `《A》`, blank, `【1. T1】`, `C调`, link 1, `【2. T2】`, link 2 gives album `《A》` and records `T1 \| C调` and `T2` with their links |
| WorkedExample.ListingSplit | download.py:34 | stripping and splitting that listing gives its seven lines back |
| WorkedExample.HeaderLine | download.py:50-52 | `【<digit>. <title>】` is a header line with that title |
| WorkedExample.TuneLine | download.py:57-62 | `C调` is a tune line that sets the tune `C调` |
| WorkedExample.LinkLine | download.py:66 | a whitespace-free `https://` line is a link line for the whole line |
| WorkedExample.ListingScan | download.py:46-69 | the state machine attaches the tune to the first record only |
| Text.IsSpace | download.py:47 | the characters `str.isspace` accepts, which `strip()` removes and `\s` matches (a test with no contract of its own) |
| Text.IsDigit | download.py:50 | `\d`: the ASCII and full-width decimal digits (a test with no contract of its own) |
| Text.StartsWith | download.py:36 | `startswith`: the text begins with the prefix (a test with no contract of its own) |
| Text.EndsWith | download_list.py:79 | `endswith`: the text ends with the suffix (a test with no contract of its own) |
| Text.Strip | download.py:47 | `strip()` is no longer than the line and has no whitespace at either end |
| Text.TrimLeft | download.py:47 | `lstrip` drops exactly the leading whitespace |
| Text.TrimRight | download.py:47 | `rstrip` drops exactly the trailing whitespace |
| Text.StripEmpty | download.py:36 | `strip()` is empty exactly when the line is all whitespace |
| Text.StripIdempotent | download.py:47 | stripping twice equals stripping once |
| Text.Split | download.py:34 | `split` gives pieces without the separator that join back to the text |
| Text.SplitJoin | download.py:34 | splitting a join of separator-free pieces gives the pieces back |
| Text.HasInfix | download.py:110 | the computed `in` test agrees with the existence of an occurrence |
| Text.IndexOf | download.py:57 | the first occurrence of a character |
| Text.IndexOfAt | download.py:57 | an index that holds the character, with none before it, is the one the search finds |
| Text.Replace | download.py:98 | `replace` brings in no character that is in neither the string nor the replacement, and a one-character pattern the replacement lacks is gone from the result |
| Text.ReplaceLeavesNone | download_list.py:48 | `replace` leaves no occurrence of the pattern when the replacement cannot create one |
| Text.ReplaceKeeps | download_list.py:48 | `replace` keeps an occurrence of a string that cannot overlap the pattern |
| Text.ReplaceIntroduces | download_list.py:48 | an occurrence of the pattern becomes an occurrence of the replacement |
| Text.RemoveChars | download.py:62 | `re.sub(r"（\|）", "", …)` keeps exactly the characters outside the set |

## Left out

- `get_session` (`download.py:15-26`, `download_list.py:11-22`) is not modelled. Retry and backoff, the random user agent and the reuse of the session belong to the HTTP library.
- HTTP and HTML parsing are abstracted by `Net`. `raise_for_status` is part of a failed response, and a page is the list of its `<source>` elements' `src` attributes. A `<source>` without `src` would raise an uncaught `KeyError` at `download.py:109`; the model assumes every element has one.
- `int(content-length)` raising `ValueError` on a malformed header is not modelled. The header is either absent or a natural number.
- The progress bar and `pyperclip` are not modelled. The progress bar is kept only as its counter and its total.
- Only the messages `download_music` prints are kept, as the `Event` log (`download.py:106-123`, `download_list.py:44-68`). The other `print` calls are not modelled: the extractor's error message (`download.py:37`, `get_info.py:24`), `get_info.py`'s progress messages (`get_info.py:28`, `get_info.py:58`, `get_info.py:79`, `get_info.py:91`), the refusal messages (`download.py:136`, `get_info.py:95`), the saved-path messages (`download.py:140`, `get_info.py:100`) and the closing message (`download.py:147`, `download_list.py:92`).
- `argparse` and the mechanics of `sys.exit` are not modelled. The directories are parameters, and an exit is a result value.
- JSON is not modelled. `save_as_json` is represented only by the manifest path it returns: the JSON file is not added to the modelled disk. `json.load` is the parameter `load`, and a malformed manifest is not modelled.
- Failures to open or write a file are not modelled: the `Disk` never fails. An `OSError` from `open` (`download.py:116`, `download_list.py:58`) is not caught by the `except RequestException` clauses, so it would stop the run. The sanitiser keeps `/`, and an over-long name fails the same way. `Albums.SongsAttemptedInOrder` and `Scripts.BatchAttemptsAll` therefore hold only for runs in which every file opens.
- `os.makedirs` and `os.path.exists` are not modelled; directories always exist. `os.path.join` is modelled for POSIX paths only.
- The order of `os.listdir` is unspecified, so the listing is an arbitrary sequence parameter.
- Python's `\d` is approximated: digits are the ASCII and full-width decimal digits, not every Unicode decimal. Whitespace, for `\s` and `str.strip`, is not approximated: `Text.IsSpace` lists the full set of code points `str.isspace` accepts.
- The `not lines` test at `download.py:36` is never true, because `split` always returns at least one piece. It has no branch in the model.
- The conditional at `download.py:61` builds the same string in both branches, so it is one expression in the model.
- The record check `url_match and base_title` treats an empty title like `None` (`download.py:67`). The model follows this.
- `DownloadFacts.SourcesFetchAccepted`: does not say how many accepted sources are fetched before a `RequestException`, only that the fetched ones are a prefix in source order. `DownloadFacts.SourcesLastWins` covers the case where every stream arrives whole.
- `extract` being idempotent on a re-serialised listing is not modelled. The scripts have no serialiser back to listing text; the manifest is JSON.
- The extraction is not proved equal between the two copies of the extractor. One function stands for both, because the copies differ only in `print` calls.
