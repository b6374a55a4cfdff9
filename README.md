# Giant Bomb CLI subscriptions — a verified model

This project models the subscription tracking of `giant_bomb_cli.py`, a
command-line client for the Giant Bomb video API. It covers:

- the store of subscribed shows and their episodes (`EpisodeInfo`,
  `ShowInfo`, `Show`, `Shows`);
- its JSON document `shows.json`, written by `save_show_data` and read back
  by `Shows.fromJson`;
- `subscribe`, which adds a show with its whole episode history;
- `download_subscriptions`, which compares every show of the remote show
  list with the store. It syncs new episodes in with `get_new_episodes` and
  downloads every episode not yet flagged `downloaded_or_skiped`, saving
  the store after each step;
- the helpers around them: `get_status_code_as_string`, `validate_args`,
  `create_filter_string_from_args`, `create_request_url`, and the filename
  built by `prepare_and_download`.

Modules, one per file:

- `Wrappers` (`wrappers.dfy`): the `Option` type.
- `Text` (`text.dfy`): Python string comparison (`LexLess`), `str.replace`,
  `str.split(sep)` and `split(sep)[-1]`, and `str`/`int` of integers.
- `Records` (`records.dfy`): the episode and show records,
  `get_latest_date`, `contains_show_id`.
- `Json` (`json.dfy`): the JSON tree, what `reprJSON` produces, and what
  the constructors accept back.
- `Store` (`store.dfy`): the `Shows` class, `shows.json` as part of an
  `Environment` object, loading and saving.
- `Remote` (`remote.dfy`): `get_episode_data` over an oracle that answers
  page requests, and the show list of `dump_video_shows`.
- `Cli` (`cli.dfy`): the parsed options and the URL helpers.
- `Sync` (`sync.dfy`): `get_new_episodes` and `subscribe`.
- `Downloader` (`download.dfy`): `prepare_and_download` and
  `download_subscriptions`.
- `PassProperties` (`pass_properties.dfy`): what a download pass
  guarantees about the store.
- `AsWritten` (`as_written.dfy`): the download pass exactly as written,
  where a pending episode without a URL raises.

The web service is a parameter. `PageOracle` maps a show id and an offset
to a page or a failure. The show list is an `Option` of its results. The
outside world the commands change is an `Environment` object with three
fields: the JSON value of `shows.json`, the number of saves, and the list
of transfers asked of the downloader. Python exceptions become explicit
outcomes (`FetchCrashed`, `ShowListFailed`, `SyncFailed`) that leave the
state as it was when the exception was raised.

Where the tool's documentation and the code disagree, the model follows
the code:

- `download_subscriptions` iterates the remote show list, not the store.
  A stored show missing from the list is never synced or downloaded
  (`PassLeavesUnmatched`).
- A failed history fetch is not local to one show. `get_episode_data`
  returns the integer 1, and iterating it raises, which ends the whole
  pass (`SyncFailed`) or the subscription (`FetchCrashed`). A failed
  show-list fetch ends the pass in the same way.
- An episode is flagged `downloaded_or_skiped` once `prepare_and_download`
  returns, whether or not the transfer succeeded (`download_video` catches
  `OSError`).
- The download always uses `high_url`, whatever `--quality` says.
- Any failure to read `shows.json` gives the empty store.

One exception: `prepare_and_download` as written raises on a pending
episode whose `high_url` is None (see Findings). `Pass`,
`DownloadShowEpisodes` and `DownloadSubscriptions` model the corrected
behaviour, in which the None check of `download_video` takes effect and the
episode is passed over and flagged. The pass as written is
`AsWritten.PassAsWritten`: it stops at the first such episode, leaves it
pending, and so every later run stops there again
(`AsWritten.StuckEpisodeScenario`).

## Model

| member | source | states |
|---|---|---|
| Text.Replace | giant_bomb_cli.py:418-420 | `str.replace` of a character: when the replacement lacks the replaced character, the result holds none of it |
| Text.ReplaceLength | giant_bomb_cli.py:418-420 | the length grows by the replacement's extra length once per occurrence |
| Text.ReplaceAppend | giant_bomb_cli.py:418-420 | `str.replace` works in place: replacing in two joined parts is joining the replaced parts, so the other characters are kept in order |
| Text.ReplaceAbsent | giant_bomb_cli.py:418-420 | a string without the replaced character is left unchanged |
| Text.ReplaceKeepsAbsent | giant_bomb_cli.py:418-420 | a character found neither in the input nor in the replacement is not in the result |
| Text.LastSegment | giant_bomb_cli.py:421 | `split(sep)[-1]` holds no separator |
| Text.LastSegmentIsSuffix | giant_bomb_cli.py:421 | `split(sep)[-1]` is a suffix of the string, preceded by the separator unless it is the whole string, and the whole string when there is no separator |
| Text.Split | giant_bomb_cli.py:421 | `str.split(sep)` gives one piece more than there are separators, and no piece holds the separator |
| Text.SplitJoins | giant_bomb_cli.py:421 | joining the pieces of `split(sep)` with the separator gives the string back, so the pieces are exactly the separator-free runs between separators |
| Text.JoinSplits | giant_bomb_cli.py:421 | splitting the join of separator-free pieces gives those pieces back |
| Text.LastSegmentIsLastPiece | giant_bomb_cli.py:421 | `split(sep)[-1]` as computed by `LastSegment` is the last piece of `Split` |
| Text.LexLessTotal | giant_bomb_cli.py:46 | Python's string `<` orders any two different strings one way or the other (with `LexLessTransitive`, `LexLessIrreflexive`, `LexLessAsymmetric`) |
| Records.NewEpisodeInfo | giant_bomb_cli.py:15-22 | a new episode keeps every given field and is flagged downloaded-or-skipped by default |
| Records.GetLatestDate | giant_bomb_cli.py:43-48 | the loop from "1/1/1800" that keeps the greater date equals `LatestDate` of the episodes |
| Records.LatestDateIsUpperBound | giant_bomb_cli.py:43-48 | the latest date is not below the sentinel or any episode's date |
| Records.LatestDateIsAttained | giant_bomb_cli.py:43-48 | the latest date is the sentinel or some episode's date |
| Records.LatestDateOfAppend | giant_bomb_cli.py:43-48 | appending episodes never lowers the latest date, which ends at least every appended date |
| Records.FindShow | giant_bomb_cli.py:88-93 | the lookup finds the first show with the id, and finds nothing exactly when no show has it |
| Records.FindShowIgnoresContents | giant_bomb_cli.py:50-54 | only ids matter: replacing a show by one with the same id leaves every lookup unchanged |
| Json.EpisodesRoundTrip | giant_bomb_cli.py:24-38 | the episode list written by `reprJSON` decodes, through `Json.EpisodesFromJson`, to the same episodes in the same order |
| Store.OneBadShowLosesStore | giant_bomb_cli.py:78-83 | one show entry that does not decode makes `fromJson` raise, so the load of lines 259-263 yields the empty store and the other shows are lost too |
| Json.GetFieldFindsLast | giant_bomb_cli.py:35-36 | a key lookup in a JSON object fails exactly when no member has the key, and otherwise finds the value of the last member with it, as `json.loads` keeps the last duplicate |
| Json.EpisodeRoundTrip | giant_bomb_cli.py:24-38 | an episode written with its seven keys reads back as the same episode, null URLs included |
| Json.ShowRoundTrip | giant_bomb_cli.py:40-66 | a show written as `{"show": {...}}` reads back as the same show |
| Json.ShowsRoundTrip | giant_bomb_cli.py:78-86 | the store written by `reprJSON` and read back by `fromJson` is the same shows in the same order |
| Store.BuildShow | giant_bomb_cli.py:28-62 | the loop over the raw episodes builds the show the decoder describes, and fails exactly where it does |
| Store.Shows.constructor | giant_bomb_cli.py:75-76 | a new store is empty |
| Store.Shows.FromJson | giant_bomb_cli.py:78-83 | the store becomes the decoded shows, and the call fails exactly when decoding does |
| Store.Shows.ContainsShowId | giant_bomb_cli.py:88-93 | the scan returns the index `FindShow` gives |
| Store.SaveShowData | giant_bomb_cli.py:284-286 | the document becomes the encoding of the current store, and one more save is counted |
| Store.LoadShows | giant_bomb_cli.py:258-263 | a fresh store holds the decoded document, or nothing when it is missing or does not decode |
| Store.SaveThenLoad | giant_bomb_cli.py:284-286 | what a save writes, the next load reads back unchanged |
| Remote.PageEpisodesAppend | giant_bomb_cli.py:331-333 | converting the results of consecutive pages one by one is converting their concatenation, so episodes keep the order of the results |
| Remote.EpisodeData | giant_bomb_cli.py:323-337 | every fetched episode carries the `skipped` flag |
| Remote.GetEpisodeData | giant_bomb_cli.py:323-337 | the loop and the recursion on full pages return `EpisodeData`, failing when any page fails |
| Remote.EpisodeDataIsConcatenation | giant_bomb_cli.py:335-337 | `k` full pages followed by a page that is not full yield the concatenation of those `k + 1` pages |
| Remote.EpisodeDataFailsAfterFullPages | giant_bomb_cli.py:327-336 | a failed request after any number of full pages fails the whole fetch |
| Remote.ThreePages | giant_bomb_cli.py:335-336 | pages of 100, 100 and 37 results give 237 episodes |
| Remote.RemoteShows | giant_bomb_cli.py:244-252 | one show per result, keyed by `str(id)`, with no folder and the first latest episode's date as latest date; none when some `latest` list is empty |
| Cli.Args.constructor | giant_bomb_cli.py:452-496 | the option defaults: limit 25, offset 0, quality high, sort desc, no filter, no folder, old episodes skipped |
| Cli.GetStatusCodeAsString | giant_bomb_cli.py:148-158 | "OK" exactly for code 1, and "Unknown" exactly for codes outside the table |
| Cli.ValidateArgs | giant_bomb_cli.py:339-357 | accepted options have a valid sort order and quality and use filter options only with `--filter`; a refusal names one of these faults |
| Cli.FilterString | giant_bomb_cli.py:160-176 | empty exactly when not filtering, otherwise starting with `&filter=` |
| Cli.FilterStringParsesBack | giant_bomb_cli.py:163-175 | when no value holds a comma, the text after `&filter=` splits at the commas into exactly the present options' `key:value` pieces, in the order name, id, video type, show, then the empty piece after the closing comma |
| Cli.DecodeSpacesRoundTrip | giant_bomb_cli.py:165-167 | writing the name's spaces as `%20` loses nothing: decoding `%20` back gives the name, as long as it holds no `%` |
| Cli.FilterNameHasNoSpace | giant_bomb_cli.py:165-167 | the name term carries no space once written into the URL |
| Cli.CreateFilterStringFromArgs | giant_bomb_cli.py:160-176 | the built string is `FilterString` of the options, and the stored name is space-encoded exactly when filtering by a name |
| Cli.CreateRequestUrl | giant_bomb_cli.py:178-189 | the URL starts with the videos endpoint |
| Cli.RequestUrlCarriesPaging | giant_bomb_cli.py:184-185 | the limit and the offset are written as decimals that parse back to the options' values |
| Sync.NewerSpec | giant_bomb_cli.py:290-295 | the kept episodes are exactly the fetched ones dated after the threshold, each flagged for download |
| Sync.NewerAppend | giant_bomb_cli.py:290-295 | the selection keeps the fetched order and takes each fetched episode at most once: selecting from two runs of history appends the two selections |
| Sync.NothingNewer | giant_bomb_cli.py:292-295 | no fetched date after the threshold means nothing is appended |
| Sync.SyncOnlyAddsNewer | giant_bomb_cli.py:288-295 | a sync keeps the old episodes as a prefix and appends only episodes dated after the old latest date, flagged for download |
| Sync.SyncedCoversFetched | giant_bomb_cli.py:288-295 | after a sync no fetched episode is dated after the show's latest date |
| Sync.ResyncAppendsNothing | giant_bomb_cli.py:288-295 | syncing again with the same history appends nothing |
| Sync.GetNewEpisodes | giant_bomb_cli.py:288-295 | on a successful fetch the store's show `k` becomes its sync and nothing else changes; on a failed fetch nothing changes |
| Sync.SyncScenario | giant_bomb_cli.py:288-295 | show "100" with a processed 2020-01-01 episode, synced with 2020-01-01 and 2020-02-15, gains exactly the 2020-02-15 episode, flagged for download |
| Sync.Subscribe | giant_bomb_cli.py:296-320 | refused exactly without an output folder; an already-stored id exactly when one is found, changing nothing; a raise exactly when the id is new and the history fetch fails, changing nothing; otherwise the fetched show is appended and saved once |
| Sync.SubscribeTwice | giant_bomb_cli.py:311-320 | after a subscription is saved, the reloaded store holds the id |
| Downloader.SanitizeName | giant_bomb_cli.py:418-420 | the file stem has no space, slash or colon |
| Downloader.CleanNameKept | giant_bomb_cli.py:418-420 | a name with no space, slash or colon is the file stem unchanged |
| Downloader.SanitizeNameAppend | giant_bomb_cli.py:418-420 | the stem of a name of two parts is the two parts' stems joined, so every other character survives in order |
| Downloader.FilenameLayout | giant_bomb_cli.py:418-426 | the file name is the folder and a slash, a clean stem, a dot, and the URL's extension without a dot |
| Downloader.PrepareAndDownloadAsWritten | giant_bomb_cli.py:416-421 | as written, the step raises exactly when there is no URL, and otherwise asks for a transfer of that URL |
| Downloader.PrepareAndDownloadStep | giant_bomb_cli.py:416-428 | a transfer is asked exactly when there is a URL, to that URL, and nothing raises |
| Downloader.NoneUrlRaisesAsWritten | giant_bomb_cli.py:416-421 | with no URL the code as written raises, where the corrected step asks for nothing |
| Downloader.PrepareAndDownload | giant_bomb_cli.py:416-428 | the transfer list grows by the corrected step's request |
| Downloader.NoPendingAllMarked | giant_bomb_cli.py:278-282 | a show with nothing pending is already fully flagged |
| Downloader.DownloadPendingEpisode | giant_bomb_cli.py:278-281 | one pending episode: its transfer is asked, its flag is set in the store and nothing else changes there, and the store is saved, so the document holds the new store |
| Downloader.DownloadShowEpisodes | giant_bomb_cli.py:278-282 | every pending episode is downloaded in order, flagged and saved; the document then holds the store |
| Downloader.ProcessRemoteShow | giant_bomb_cli.py:272-282 | one remote show moves the state as `ProcessRemote` says, failing exactly when the sync fetch does |
| Downloader.DownloadSubscriptions | giant_bomb_cli.py:256-282 | returns 1 exactly on an empty store; fails exactly on a missing or malformed show list; otherwise the transfers, saves and document are those of `Pass`, and the document always holds the store as it stood at the last save |
| PassProperties.LatestDateIgnoresFlags | giant_bomb_cli.py:43-48 | flagging episodes does not change the latest date |
| PassProperties.FindShowAfterExtends | giant_bomb_cli.py:88-93 | a pass keeps the ids, so the lookup finds the same show before and after |
| PassProperties.DownloadsAtMostPending | giant_bomb_cli.py:278-282 | the inner loop asks for at most one transfer per pending episode, each followed by a save |
| PassProperties.FlushShape | giant_bomb_cli.py:278-282 | the inner loop leaves its show fully flagged with the same dates, and leaves the other shows alone |
| PassProperties.ProcessRemoteGrows | giant_bomb_cli.py:271-282 | one step only grows shows and only sets flags; transfers only accumulate, each with a save; a step with no save changes nothing; a failure changes nothing |
| PassProperties.ProcessRemoteTouchesOne | giant_bomb_cli.py:271-282 | one step changes at most the store's show with the remote id, which ends processed with a latest date no earlier than before |
| PassProperties.PassGrows | giant_bomb_cli.py:271-282 | a whole pass only grows shows and sets flags, never clears one; a pass with no save changes neither store nor transfers |
| PassProperties.PassProcessesMatched | giant_bomb_cli.py:271-282 | after a completed pass every stored show that the remote list names is fully downloaded or skipped |
| PassProperties.PassLeavesUnmatched | giant_bomb_cli.py:271-273 | a stored show no remote show names is left exactly as it was |
| PassProperties.SettledAfter | giant_bomb_cli.py:274-282 | processing a remote show leaves its stored show processed and caught up with the fetched history |
| PassProperties.SettledForKept | giant_bomb_cli.py:271-282 | later steps keep a show settled, since its latest date only rises |
| PassProperties.PassSettles | giant_bomb_cli.py:271-282 | after a completed pass the store is settled for every remote show |
| PassProperties.SettledPassIsIdle | giant_bomb_cli.py:271-282 | a pass over settled shows asks for no transfer and changes no show |
| PassProperties.RerunDownloadsNothing | giant_bomb_cli.py:256-286 | rerunning the pass on the document the first run left, with the same remote data, loads the first run's store, asks for no transfer and leaves the store unchanged |
| PassProperties.DownloadScenario | giant_bomb_cli.py:271-282 | show "100" with a processed 2020-01-01 and a pending 2020-02-15 episode, listed at 2020-02-15: exactly one transfer, that episode flagged, one save, no sync |
| AsWritten.FirstStuck | giant_bomb_cli.py:278-280 | the episode the inner loop as written raises at: the first one that is pending and has no URL, with none such before it, or none at all |
| AsWritten.FirstStuckIs | giant_bomb_cli.py:278-280 | a stuck episode with no stuck episode before it is the one found |
| AsWritten.PendingOfPrefix | giant_bomb_cli.py:278-282 | the episodes before any point ask for a prefix of the transfers and no more saves than all the episodes |
| AsWritten.FlushAsWrittenStops | giant_bomb_cli.py:278-282 | at a stuck episode the pass as written stops; it has asked for a prefix of the corrected loop's transfers and saved no more often; the other shows are unchanged, every episode before the stuck one is flagged, and the stuck one is still pending and still the first stuck one |
| AsWritten.FlushAsWrittenStuckAgain | giant_bomb_cli.py:278-282 | on a show whose episodes before the stuck one are all flagged, the inner loop as written asks for nothing, saves nothing, and stops the pass again |
| AsWritten.ProcessRemoteAsWrittenWithoutSync | giant_bomb_cli.py:271-282 | a remote show dated no later than the stored one only runs the inner loop as written |
| AsWritten.StuckEpisodeScenario | giant_bomb_cli.py:256-282 | a stored pending episode without a URL after one with a URL: the first run as written downloads the first, saves once and raises; a rerun from the saved document asks for nothing, saves nothing and raises again; with the None check the pass completes, flags both and saves twice |

## Left out

- HTTP (`retrieve_json_from_url`, `urlopen`, the status-code check) is not modelled. A page request is a `PageOracle` call and a failure of any kind is `FetchFailed`. The show list is an `Option` parameter.
- The request URL of `get_episode_data` is not built. The oracle is keyed by show id and offset. `get_new_episodes` passes `False` as the offset, which line 324 formats into the URL as `offset=False`; the model assumes the service answers that as `offset=0`, as the arithmetic of line 336 does.
- Remote.EpisodeData: a service that returns full pages forever makes the source recurse until Python's recursion limit. The model instead requires the `Ends` bound (every history ends within `n` pages), so that case is not covered.
- Remote.GetEpisodeData, Sync.GetNewEpisodes and Sync.Subscribe: require the `Ends` bound for the ids they fetch, for the same reason.
- Downloader.DownloadSubscriptions and Downloader.ProcessRemoteShow: require the `Ends` bound for every id, even for shows whose history the pass never fetches, because `Pass` is stated over the whole oracle.
- PassProperties.ProcessRemoteGrows, PassProperties.ProcessRemoteTouchesOne, PassProperties.PassGrows, PassProperties.PassProcessesMatched, PassProperties.PassLeavesUnmatched, PassProperties.SettledAfter, PassProperties.SettledForKept, PassProperties.PassSettles, PassProperties.SettledPassIsIdle, PassProperties.RerunDownloadsNothing, PassProperties.DownloadScenario and the `AsWritten` pass lemmas: stated under the same bound for every id.
- A page or show-list entry lacking a key (`results`, `number_of_page_results`, `title`, `deck`, `latest`) raises `KeyError` in the source. The model's pages are well formed. `dump_video_shows`' printing of titles is left out.
- `urlretrieve`, `os.makedirs`, `dlProgress`, `stream_video` and `mplayer` are not modelled. A transfer is the `Download` entry it asks for. A transfer that fails with `OSError` is not distinguished, as `download_video` catches that and goes on (line 380).
- Other exceptions of a transfer are not modelled: a `ValueError` from `urlretrieve` on a URL without a scheme, or a `ZeroDivisionError` in `dlProgress` (line 385) when the server reports a total size of 0. Each would end the pass before the episode is flagged, as the stuck episode of `AsWritten` does; the model treats every transfer with a URL as returning.
- File I/O is not modelled: `shows.json` is the JSON value it holds, or None when it is missing or is not JSON. Writing and parsing JSON text, and non-atomic writes, are left out.
- `Store.Loaded`: a document with a field of a different JSON type from the one `save_show_data` writes (a string `video_id`, say) counts as unreadable, where Python would load the value as it is.
- `get_api_key`, `gb_log`, `output_response`, `convert_seconds_to_string`, `file_exists_on_server`, `dump_video_types`, the `argparse` parsing and `main`'s dispatch are outside the subscription core.
- `Cli.Args.constructor`: `--subscribe_to_show_id` defaults to False in the source and to the empty string here. `main` calls `subscribe` only when the value is truthy, and both values are falsy.
- `Cli.GetStatusCodeAsString`: the source converts its argument with `int()`, which raises on a non-numeric string. The model takes an integer.

## Findings

| source | as written | input that shows it | evidently intended | confidence | as-written member | corrected member |
|---|---|---|---|---|---|---|
| giant_bomb_cli.py:416-422 | `url.split(".")` runs before `download_video` checks for a None URL (lines 373-375), so a pending episode without `high_url` raises `AttributeError`. The pass then ends before the episode is flagged, and every later run stops at the same episode | a stored episode with `high_url` null and `downloaded_or_skiped` False, after one with a URL (AsWritten.StuckEpisodeScenario; for one call, Downloader.NoneUrlRaisesAsWritten) | the None check takes effect: the episode is passed over with a message and then flagged like any other | high (not executed) | AsWritten.PassAsWritten | Downloader.DownloadSubscriptions |
