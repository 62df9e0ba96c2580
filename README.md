# Lecture scraper core, modelled in Dafny

The project (`final_project`) downloads recorded lectures and their slides from
two video players, *matterhorn* and *panopto*. A browser session records a
network log. The scraper then does the following:

- It picks the HLS playlist URLs out of that log.
- It joins them to the lecture titles found on the course page.
- It fetches each candidate playlist and chooses the variant with the largest
  resolution (HLS, RFC 8216, section 4.3.4.2, `EXT-X-STREAM-INF`). From that
  variant it builds the final download URL.
- A Luigi task graph turns the result into one download (or upload) task per
  lecture perspective and one slide task per title.

This Dafny project models that core:

- the string and collection logic of `scrape.py`;
- the task descriptors of `luigi_tasks.py`;
- the file-name sanitiser of `globals.py`.

It proves the properties each piece promises.

Modules, one per concern:

- `Results`: `Option`, `Result`, and the Python exception kinds that the code can raise.
- `Strings`: CPython's `split`, `join`, `replace`, `splitlines`, `strip`, `int()`, `str()` and `'{:02}'`.
- `Dicts`: a Python dict as its items in insertion order.
- `Globals`: `clean_file_name` and POSIX `os.path.join`.
- `Timestamps`: `timestamp_to_file_name`.
- `NetLog`: `extract_m3u8s_from_netlog`.
- `Correlate`: `get_title_to_m3u8s`.
- `Playlist`: `get_title_to_download_links` and the `.ts` list of `download_lecture`.
- `Tasks`: the Luigi tasks as data.

How the source's external parts appear in the model:

- Every Python exception becomes an `Err` of its kind. The model follows the one exception up to the caller, exactly as the code does.
- Every HTTP fetch is a parameter `fetch: string -> string`, a snapshot of the server.
- `json.loads` is a parameter `decode`.
- The BeautifulSoup results (title -> lecture URL, timestamp -> thumbnail link) are inputs.
- The environment variables are a `Config` value.

Loops of the source are methods with loops. Each method is proved equal to a
prefix-recursive specification function, and the lemmas are about those
functions. Several of these functions take the per-item step as a function
parameter: the line classifier of the variant parse, the link of one
candidate, the list of one title, the file name of one timestamp and the
area of one key. Their lemmas then hold for every such step, and the program
passes the concrete one.

Behaviour the model keeps as the code has it:

- Every lecture task is named `<title> - perspective<N>`, even for a title with a single variant (final_project/luigi_tasks.py:281).
- A candidate body without `#EXT-X-STREAM-INF` contributes nothing to its title's list (final_project/scrape.py:422, which has no `else`).
- Failures are not collected per title. The first missing id in the correlation raises `KeyError` and aborts the whole call (final_project/scrape.py:391, 402). The first failing candidate aborts the resolution in the same way. So does the first title without a page source when slide tasks are built (final_project/luigi_tasks.py:292).
- The panopto session id is the first 36 characters of URL segment 5 (final_project/scrape.py:397).
- A resolution that occurs twice keeps its first position in the dict, but its path is the one after the last tag line with it (final_project/scrape.py:443).
- The net-log reader's strict parse path ends in an unbound variable (final_project/scrape.py:336-348, see Findings). The model uses the evidently intended reader.

## Model

| member | source | states |
|---|---|---|
| Globals.CleanFileName | final_project/globals.py:15-19 | replacing a forbidden character by one `_` keeps the length |
| Globals.CleanFileNameAt | final_project/globals.py:19 | at every position, a forbidden character becomes `_` and any other character is kept |
| Globals.CleanFileNameIsClean | final_project/globals.py:19 | no character of a cleaned name is one of `\ / : * ? " < > \|` |
| Globals.CleanFileNameKeepsCleanNames | final_project/globals.py:19 | a name without forbidden characters is returned unchanged |
| Globals.CleanFileNameIdempotent | final_project/globals.py:19 | cleaning twice is cleaning once |
| Globals.PathJoinClean | final_project/luigi_tasks.py:84 | joining a root without a trailing `/` to a cleaned name gives root, one `/`, and the name |
| Timestamps.MinutesSeconds | final_project/scrape.py:269-276 | `M:S` names the file `00_MM_SS.jpg`: the missing hour reads as 0 and each field is zero-padded |
| Timestamps.HoursMinutesSeconds | final_project/scrape.py:269-276 | `H:M:S` names the file `HH_MM_SS.jpg` from the three field values |
| Timestamps.NoColonIsIndexError | final_project/scrape.py:274-275 | a timestamp without `:` has too few fields, so `split[-3]` raises IndexError |
| Timestamps.Example | final_project/scrape.py:274-275 | `5:07` gives `00_05_07.jpg` |
| Timestamps.NameRoundTrip | final_project/scrape.py:275 | for fields below 100, the three values can be read back from the twelve-character name |
| NetLog.RepairDropsTrailingComma | final_project/scrape.py:340 | the repair `s[:-2] + ']}'` closes a log that was cut off after an event's `,\n` |
| NetLog.LoadNetLogAttempts | final_project/scrape.py:335-343 | a log that parses is used as it is; otherwise exactly one retry on the repaired text; a second failure is re-raised |
| NetLog.LoadNetLogTriesTwoTexts | final_project/scrape.py:335-343 | the outcome depends only on decoding the text and its one repair, so there is no third attempt |
| NetLog.StrictPathRaisesAsWritten | final_project/scrape.py:336-348 | as written, every log that parses strictly ends in NameError; the intended reader returns its document |
| NetLog.StrictPathCounterexample | final_project/scrape.py:336-348 | the complete empty log `{"events": []}` shows the discrepancy |
| NetLog.FilterFailsIffUrlMissing | final_project/scrape.py:348-355 | the filter fails exactly when an event from a video host has no `url` |
| NetLog.FilterOnlyKeyError | final_project/scrape.py:354 | the only error of the filter is KeyError |
| NetLog.FilterIsSelectedSubsequence | final_project/scrape.py:347-357 | the result lists the URLs of exactly the events that have `params`, one of the two origins and `.m3u8` in the URL, in log order |
| NetLog.FilterM3u8s | final_project/scrape.py:347-357 | the append loop computes the filter specification |
| NetLog.ExtractM3u8sFromNetLog | final_project/scrape.py:325-357 | the whole reader, with the corrected loader (see Findings): a loading error or a missing `events` is raised, otherwise the filter of the events |
| Correlate.TitleToLectureId | final_project/scrape.py:377 | the keys are the input titles in order, each with the text between its URL's first and second `id=` (to the end of the URL when there is no second); IndexError exactly when some URL has no `id=` |
| Correlate.GroupsFailIff | final_project/scrape.py:381-382 | the grouping raises IndexError exactly when some URL has no segment 4 |
| Correlate.GroupsAt | final_project/scrape.py:380-387 | an id has a group exactly when some URL has it as segment 4, and the group is those URLs in input order |
| Correlate.GroupsArePermutation | final_project/scrape.py:380-387 | the group lists together are a permutation of the input URLs |
| Correlate.GroupById | final_project/scrape.py:380-387 | the grouping loop computes the grouping specification |
| Correlate.TableLastWriteWins | final_project/scrape.py:394-398 | a session id maps to the segment 4 of the last URL that has it (first 36 characters of segment 5) |
| Correlate.TableValuesAreBaseIds | final_project/scrape.py:394-398 | every table entry is the segment 4 of some observed URL |
| Correlate.TableFailsIff | final_project/scrape.py:395-397 | the table raises IndexError exactly when some URL has no segment 5 |
| Correlate.BuildSessionTable | final_project/scrape.py:394-398 | the table loop computes the table specification |
| Correlate.LookupAll | final_project/scrape.py:389-402 | each title gets the group of its base id in title order; KeyError exactly when some id is not found |
| Correlate.TitleToM3u8s | final_project/scrape.py:360-402 | the method computes the correlation specification for both players |
| Correlate.CorrelateResult | final_project/scrape.py:389-402 | the keys are the input titles; each list holds the observed URLs with the title's base id, in input order, and is non-empty |
| Correlate.TableKeys | final_project/scrape.py:394-398 | the keys of `id2_to_id1` are exactly the session ids the observed URLs carry |
| Correlate.CorrelateFailsIffIdAbsent | final_project/scrape.py:391-402 | with ids, groups and table built, the call fails with KeyError exactly when some title's id is carried by no observed URL (as base id for matterhorn, as session id for panopto) |
| Playlist.ResolutionToken | final_project/scrape.py:438 | the first `\d*x\d*` match exists exactly when the line contains `x` |
| Playlist.ResolutionTokenOfTagLine | final_project/scrape.py:436-438 | on a tag line `...RESOLUTION=<W>x<H>...`, the token is `<W>x<H>` |
| Playlist.AreaOfResolution | final_project/scrape.py:449-450 | the area of `<W>x<H>` is W times H |
| Playlist.AreaOnlyValueError | final_project/scrape.py:449-450 | a key that does not split into two integers raises ValueError |
| Playlist.VariantsOnlyIndexError | final_project/scrape.py:436-441 | the only error the variant parse raises is IndexError |
| Playlist.VariantsFailIff | final_project/scrape.py:436-441 | for any line classifier, the parse of the first `n` lines fails exactly when one of them is a tag line without a resolution token or with no line after it |
| Playlist.VariantsOfFailIff | final_project/scrape.py:436-441 | the whole parse fails, with IndexError, exactly when some `#EXT-X-STREAM-INF` line has no `x` (so `findall(...)[0]` at line 438 has nothing to index) or is the last line (so `m3u8_content[i+1]` at line 440 is out of range) |
| Playlist.VariantsLastWriteWins | final_project/scrape.py:432-443 | a resolution's path is the line after its last tag line |
| Playlist.VariantKeysDistinct | final_project/scrape.py:443 | each resolution appears once among the keys |
| Playlist.VariantKeysFromTags | final_project/scrape.py:436-443 | every key is the resolution of some tag line |
| Playlist.VariantKeysGrow | final_project/scrape.py:443 | a key keeps the position it first got: earlier key lists are prefixes of later ones |
| Playlist.ParseVariants | final_project/scrape.py:426-443 | the line loop computes the variant specification |
| Playlist.MaxRunInvariant | final_project/scrape.py:446-454 | while scanning, the running best has the largest area so far and is the first with that area; an error is that of some key |
| Playlist.BestIsFirstMaximum | final_project/scrape.py:446-457 | the chosen key has the largest W*H, and every earlier key has a strictly smaller one (ties go to the earliest) |
| Playlist.BestFailsIff | final_project/scrape.py:446-457 | ValueError exactly when some key is not a resolution; KeyError exactly when every area is negative (also for an empty dict, `resolution_dict[None]`) |
| Playlist.SelectMaxResolution | final_project/scrape.py:446-457 | the maximum loop computes the selection specification |
| Playlist.FirstMatch | final_project/scrape.py:468 | the match found is the leftmost one, and no earlier position matches |
| Playlist.MatterhornBaseOf | final_project/scrape.py:463-468 | for `<host><segment>/<rest>` with a `[\w-]*` segment, the base is `<host><segment>/` |
| Playlist.PanoptoBaseOf | final_project/scrape.py:465-468 | for `<host><session>/<folder>/<rest>`, the base is `<host><session>/<folder>/` |
| Playlist.LastMp4End | final_project/scrape.py:475 | the greedy `.*` ends at the last `mp4` on the line |
| Playlist.FirstMp4 | final_project/scrape.py:475 | the `../.*.mp4` match taken is the leftmost one |
| Playlist.Mp4ReferenceOfLine | final_project/scrape.py:475 | a variant playlist that is the single line `../<path>.mp4` refers to that line |
| Playlist.CandidateLinkSome | final_project/scrape.py:419-483 | a body without `#EXT-X-STREAM-INF` adds nothing and cannot fail; a master body that succeeds adds one URL |
| Playlist.PanoptoEntry | final_project/scrape.py:416-483 | a panopto master playlist at `<host><session>/<folder>/<rest>` gives `<host><session>/<folder>/` plus the path of the variant of largest area |
| Playlist.MatterhornEntry | final_project/scrape.py:416-483 | a matterhorn master playlist at `<host><segment>/<rest>` whose chosen variant refers to `m` gives `<host><segment>/` plus `m[3:]`, the variant being of largest area |
| Playlist.ResolveCandidate | final_project/scrape.py:416-483 | one candidate is computed as the specification says: variants, maximum, base, then `base + mp4[3:]` (matterhorn) or `base + path` (panopto) |
| Playlist.LinksPerMasterCandidate | final_project/scrape.py:412-486 | a title's list has one entry per master-playlist candidate, in candidate order, so it is at most as long as the candidate list |
| Playlist.LinksFailIff | final_project/scrape.py:416-483 | a title fails exactly when one of its candidates fails, and with the first failing candidate's error |
| Playlist.ResolveTitle | final_project/scrape.py:413-486 | the candidate loop computes the title's list |
| Playlist.AllLinksPerTitle | final_project/scrape.py:410-488 | with distinct titles, the keys are the input titles in order, each with its own list; Err exactly when some title fails |
| Playlist.AllLinksKeys | final_project/scrape.py:486 | assigning each title once appends it, so keys and order match the input |
| Playlist.TitleToDownloadLinks | final_project/scrape.py:405-488 | the title loop computes the resolution specification |
| Playlist.SegmentsOfConcat | final_project/scrape.py:523-526 | the segment list is computed line by line, so it distributes over concatenation |
| Playlist.SegmentsOfLine | final_project/scrape.py:524-526 | a `.ts` line gives `url.replace('index.m3u8', line)`, any other line gives nothing |
| Playlist.SegmentsAreSplicedUrls | final_project/scrape.py:523-526 | the list is no longer than the playlist, and each entry comes from a `.ts` line |
| Playlist.SegmentList | final_project/scrape.py:520-526 | the `ts_list` loop over `splitlines()` computes the segment specification |
| Tasks.CacheTargetSharedIff | final_project/luigi_tasks.py:31-35 | two course URLs share a cache file exactly when their segment 4 is equal |
| Tasks.CacheTargetFails | final_project/luigi_tasks.py:33 | a course URL without a segment 4 raises IndexError |
| Tasks.UploadRequiresSameDownload | final_project/luigi_tasks.py:108-112 | an upload requires the download with identical parameters, whose target is the local file |
| Tasks.DownloadRequiresNothing | final_project/luigi_tasks.py:81 | a download requires nothing |
| Tasks.LectureTargetsShareName | final_project/luigi_tasks.py:83-115 | for a non-empty `VIDEO_PATH` without a trailing `/`: local target `VIDEO_PATH/<clean>.mp4` and S3 target `S3_ROOT/<clean>.mp4`, or TypeError without `S3_ROOT`; the clean name has no forbidden character |
| Tasks.TimeoutOfRun | final_project/luigi_tasks.py:286 | a test-run download gets a time cap of 1 second, a full run a cap of 3600 seconds (`download_lecture`'s default, scrape.py:501-502); the cap's value only, not when it is checked |
| Tasks.LectureCount | final_project/luigi_tasks.py:278-287 | there are as many lecture tasks as URLs over all titles |
| Tasks.LecturePositions | final_project/luigi_tasks.py:278-287 | the task for URL `i` of title `t` comes after all tasks of the earlier titles; it is named `title - perspective<i>` and carries the URL, the player and the test-run timeout |
| Tasks.LectureTasksUniform | final_project/luigi_tasks.py:281-286 | every lecture task has the run's mode, the saved player, `timeout_max` 1 in a test run (otherwise None), and a perspective name |
| Tasks.SlideTasksPerTitle | final_project/luigi_tasks.py:290-294 | exactly one slide task per title, in title order, with its page source, when the player is panopto and slides are wanted; otherwise none |
| Tasks.SlideTasksFailIff | final_project/luigi_tasks.py:290-293 | building the slide tasks fails, with KeyError, exactly when slides are wanted and some title has no page source |
| Tasks.ExpansionOfRun | final_project/luigi_tasks.py:276-294 | the expansion fails exactly in that case; otherwise it has as many lecture tasks as URLs and one slide task per title or none |
| Tasks.Expand | final_project/luigi_tasks.py:276-294 | the nested loop computes the expansion specification |
| Tasks.SlideTargetsInOrder | final_project/luigi_tasks.py:153-161 | target `i` belongs to timestamp `i` and is `os.path.join(VIDEO_PATH, <clean title> slides, <file name>)` |
| Tasks.SlideTargetsFailIff | final_project/luigi_tasks.py:154-156 | the targets fail exactly when some timestamp does not name a file |
| Tasks.DownloadSlidesTruncation | final_project/luigi_tasks.py:163-183 | a test run keeps the first two targets in order, a full run keeps all; the slides downloaded are exactly those with targets |
| Tasks.DownloadSlidesOutput | final_project/luigi_tasks.py:147-165 | the target loop, then the test-run cut, computes the output specification |
| Tasks.UploadSlidesMirrorDownload | final_project/luigi_tasks.py:207-219 | an upload requires the download with the same title, page source and test flag; the S3 targets have its timestamps, each path with `VIDEO_PATH` replaced by `S3_ROOT` and no backslash; TypeError exactly when there are targets but no `S3_ROOT` |
| Tasks.UploadCutKeepsDownloadCut | final_project/luigi_tasks.py:216-218 | the upload's own test-run cut to two leaves the S3 targets of the download's already-cut targets unchanged, as the source's comment says |
| Tasks.SlidesCompleteIffAllPresent | final_project/luigi_tasks.py:188-239 | a slide task is complete exactly when all its targets exist; with none it is complete, where Luigi's default would say it is not |

## Left out

- Browser automation is not modelled: Selenium login, two-factor prompts, iframes and page waits (`setup_and_login`, `get_player_page_source`, `open_lecture_links`). The network log is an input text.
- HTML parsing with BeautifulSoup is not modelled (`extract_lecture_links`, `get_timestamp_to_thumbnail_link`, player detection). Its results are inputs: the title -> lecture URL dict and the timestamp -> thumbnail link dict.
- Network and disk I/O, `tqdm`, console output and the wall-clock timeout loops of `download_lecture` and `download_lecture_slides` are not modelled. Console output covers the `print` before the re-raise in the net-log reader (final_project/scrape.py:342), the tasks' progress prints (final_project/luigi_tasks.py:88, 118, 169, 223) and the timeout messages (final_project/scrape.py:516, 538). Playlist bodies come from the `fetch` parameter. Only the timeout value each task gets is modelled.
- `json.loads` is the `decode` parameter. `NetLogDoc` keeps only `events`, `params`, `network_isolation_key` and `url`. The model assumes the browser log's schema: objects wherever the code indexes, and string URLs. So it does not model the TypeError of a non-object document (scrape.py:348), the AttributeError of a non-object `params` (scrape.py:352), or the TypeError or list membership test of a non-string `url` (scrape.py:354).
- The Luigi framework is not modelled: `build`, the scheduler, `LocalTarget`/`S3Target`, `temporary_path`, `pickle`, `shutil.rmtree`. The existence of targets is a set of present paths. Luigi's default `complete` is modelled only as "all outputs exist; never for no outputs".
- `ProcessAllComplete` is modelled as the constant false it is. It has no contract to state.
- Environment configuration (`VIDEO_PATH`, `S3_ROOT`, `DATA_PATH`, the `isdir` check) is the `Config` parameter, and `S3_ROOT` may be None.
- `cli.py` (argument parsing) and `tasks.py` (entirely commented out) are not part of this model. Neither is the unused pair `download_all_videos` and `download_all_lecture_slides` of `scrape.py`.
- Regular expressions are modelled one pattern at a time, not as an engine. `\d` and `\w` are ASCII only, so Unicode digits and letters are not modelled.
- `int()` handles ASCII whitespace, an optional sign and ASCII digits only. Underscores between digits and Unicode digits are not modelled.
- Byte decoding (`.content.decode()`) is not modelled: bodies are text. `splitlines` uses CPython's line boundaries: `\n`, `\r`, `\r\n`, `\v`, `\f`, `\x1c` to `\x1e`, `\x85`, `\u2028` and `\u2029`.
- `os.path.join` is the POSIX one.
- The player is one of two values, because the code raises earlier for any other player.
- Tasks.UploadSlidesMirrorDownload: relates each S3 path to its local path through the two replacements. It does not state where `S3_ROOT` ends up when `VIDEO_PATH` also occurs elsewhere in the path, because `replace` then rewrites every occurrence.

## Findings

| source | as written | input that shows it | evidently intended | confidence | as-written member | corrected member |
|---|---|---|---|---|---|---|
| final_project/scrape.py:336-348 | a strict parse binds `json_obj`, but the loop reads `json_data`, which only the repair path binds, so the loop raises UnboundLocalError (a NameError) | a complete log `{"events": []}` | the strictly parsed document is used, like the repaired one | not executed | NetLog.StrictPathRaisesAsWritten | NetLog.LoadNetLogAttempts |
